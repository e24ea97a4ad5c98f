/** What every legal history guarantees, over whole runs (docs/adr/0001, docs/adr/0002). */
module Guarantees {
  import opened Durations
  import opened History
  import opened Wrappers

  // ---------- shape of an attempt ----------

  /** Position of the latest attempt, or -1. */
  function LatestStart(log: Log): (p: int)
    ensures -1 <= p < |log|
    ensures p >= 0 ==> log[p].Started?
    ensures forall i :: p < i < |log| ==> !log[i].Started?
  {
    if log == [] then -1
    else if Last(log).Started? then |log| - 1
    else LatestStart(Front(log))
  }

  lemma {:induction false} FlightShape(reconcile: nat, log: Log)
    requires Legal(reconcile, log) && InFlight(log)
    ensures LatestStart(log) >= 0 && Listening(log) && !InventoryNeeded(log)
    ensures forall i :: LatestStart(log) < i < |log| ==> log[i].Recorded? || log[i].Ignored?
  {
    if !Last(log).Started? {
      FlightShape(reconcile, Front(log));
    }
  }

  lemma {:induction false} UntaintedSinceStart(log: Log)
    requires Untainted(log)
    ensures forall i :: LatestStart(log) < i < |log| ==> !log[i].Ignored?
  {
    if log != [] && !Last(log).Started? {
      UntaintedSinceStart(Front(log));
    }
  }

  lemma {:induction false} PendingHasDeadline(log: Log)
    ensures EventPending(log) <==> EventDeadline(log).Some?
  {
    if log != [] {
      PendingHasDeadline(Front(log));
    }
  }

  // ---------- no observed change is forgotten ----------

  predicate Observes(e: Entry) {
    e.Recorded? || e.Ignored?
  }

  /** An inventory that began after entry `p` has been accepted. */
  ghost predicate Superseded(log: Log, p: nat) {
    exists s, q :: p < s < q < |log| && log[s].Started? && log[q].Accepted?
  }

  /** A link event no accepted inventory has covered yet. */
  ghost predicate Outstanding(log: Log, p: nat) {
    p < |log| && Observes(log[p]) && !Superseded(log, p)
  }

  /** The event deadline is at most 30 s after an event no later than entry `p`. */
  ghost predicate ScheduledBy(log: Log, p: nat) {
    EventDeadline(log).Some? &&
    exists e :: 0 <= e <= p && e < |log| && Observes(log[e]) &&
                EventDeadline(log).value <= SaturatingAdd(log[e].at, MAX_DELAY)
  }

  lemma {:induction false} DeadlineHasEvent(log: Log)
    requires EventDeadline(log).Some?
    ensures ScheduledBy(log, |log| - 1)
  {
    if Last(log).Recorded? && !EventPending(Front(log)) {
      assert Observes(log[|log| - 1]);
    } else {
      DeadlineHasEvent(Front(log));
      var e :| 0 <= e < |log| - 1 && Observes(Front(log)[e]) &&
               EventDeadline(log).value <= SaturatingAdd(Front(log)[e].at, MAX_DELAY);
      assert Observes(log[e]);
    }
  }

  lemma SupersededStays(log: Log, p: nat)
    requires log != [] && p < |Front(log)|
    ensures Superseded(Front(log), p) ==> Superseded(log, p)
  {
    if s, q :| p < s < q < |Front(log)| && Front(log)[s].Started? && Front(log)[q].Accepted? {
      assert log[s].Started? && log[q].Accepted?;
    }
  }

  lemma AcceptanceSupersedes(log: Log, s: nat, p: nat)
    requires log != [] && Last(log).Accepted? && s < |log| - 1 && log[s].Started?
    ensures p < s ==> Superseded(log, p)
  {
    assert log[|log| - 1].Accepted?;
  }

  /** While an attempt is in flight, what it will cover or reject is exempt. */
  ghost predicate Remembered(log: Log, p: nat)
    requires p < |log|
  {
    || InventoryNeeded(log)
    || ScheduledBy(log, p)
    || (InFlight(log) && (p < LatestStart(log) || log[p].Ignored?))
  }

  lemma {:induction false} OutstandingRemembered(reconcile: nat, log: Log, p: nat)
    requires Legal(reconcile, log) && Outstanding(log, p)
    ensures Remembered(log, p)
  {
    var front, e := Front(log), Last(log);
    PendingHasDeadline(front);
    if p == |front| {
      if e.Recorded? {
        if EventPending(front) {
          DeadlineHasEvent(log);
        }
        assert Observes(log[p]);
      }
    } else {
      assert front[p] == log[p];
      SupersededStays(log, p);
      OutstandingRemembered(reconcile, front, p);
      if ScheduledBy(front, p) && !e.Started? {
        var x :| 0 <= x <= p && Observes(front[x]) &&
                 EventDeadline(front).value <= SaturatingAdd(front[x].at, MAX_DELAY);
        assert Observes(log[x]);
        assert ScheduledBy(log, p);
      }
      if e.Accepted? {
        FlightShape(reconcile, front);
        UntaintedSinceStart(front);
        AcceptanceSupersedes(log, LatestStart(front), p);
      }
    }
  }

  /** Between attempts, an outstanding change has the next attempt scheduled, whatever happened to its batch. */
  lemma NoLostChange(reconcile: nat, log: Log, p: nat)
    requires Legal(reconcile, log) && !InFlight(log) && Outstanding(log, p)
    ensures InventoryNeeded(log) || EventDeadline(log).Some?
  {
    OutstandingRemembered(reconcile, log, p);
  }

  ghost predicate EventsInOrder(log: Log) {
    forall i, j :: 0 <= i < j < |log| && Observes(log[i]) && Observes(log[j]) ==> log[i].at <= log[j].at
  }

  /** When the latest failure was counted; an acceptance does not clear it. */
  function LatestFailure(log: Log): Option<nat> {
    if log == [] then None
    else if Fails(Last(log)) then Some(Last(log).at)
    else LatestFailure(Front(log))
  }

  lemma {:induction false} FloorBound(log: Log)
    ensures Floor(log).Some? ==>
              LatestFailure(log).Some? && Floor(log).value <= SaturatingAdd(LatestFailure(log).value, MAX_DELAY)
  {
    if log != [] && !Fails(Last(log)) {
      FloorBound(Front(log));
    }
  }

  /**
   * The next step for an outstanding change is enabled from 30 s after the later of that event and the latest
   * failure on: the attempt itself, or first the subscription it needs. Only event times have to be in order.
   */
  lemma EnabledWithinThirtySeconds(reconcile: nat, log: Log, p: nat, t: nat)
    requires Legal(reconcile, log) && !InFlight(log) && Outstanding(log, p) && EventsInOrder(log)
    requires t >= SaturatingAdd(log[p].at, MAX_DELAY)
    requires LatestFailure(log).Some? ==> t >= SaturatingAdd(LatestFailure(log).value, MAX_DELAY)
    ensures if Listening(log) then AttemptDue(reconcile, log, t) else FloorPassed(log, t)
  {
    FloorBound(log);
    OutstandingRemembered(reconcile, log, p);
    if ScheduledBy(log, p) {
      var e :| 0 <= e <= p && Observes(log[e]) && EventDeadline(log).value <= SaturatingAdd(log[e].at, MAX_DELAY);
      assert e < p ==> log[e].at <= log[p].at;
    }
  }

  /** Later events do not postpone a scheduled attempt. */
  lemma {:induction false} NotPostponed(log: Log, p: nat)
    requires p <= |log| && EventPending(log[..p])
    requires forall i :: p <= i < |log| ==> !log[i].Started?
    ensures EventPending(log) && EventDeadline(log) == EventDeadline(log[..p])
  {
    if p == |log| {
      assert log[..p] == log;
    } else {
      assert Front(log)[..p] == log[..p];
      NotPostponed(Front(log), p);
    }
  }

  // ---------- pacing ----------

  /** The clock never runs backwards from one entry to the next. */
  ghost predicate ClockOrdered(log: Log) {
    forall i, j :: 0 <= i < j < |log| ==> log[i].at <= log[j].at
  }

  /** Between attempts: a floor or a missing subscription implies a needed inventory, and idling implies a success. */
  lemma {:induction false} HeadShape(reconcile: nat, log: Log)
    requires Legal(reconcile, log) && !InFlight(log)
    ensures Floor(log).Some? || !Listening(log) ==> InventoryNeeded(log)
    ensures !InventoryNeeded(log) ==> LatestSuccess(log).Some?
  {
    if log != [] {
      if Last(log).Accepted? {
        FlightShape(reconcile, Front(log));
      } else if Last(log).Recorded? {
        HeadShape(reconcile, Front(log));
      }
    }
  }

  /** Everything that could trigger the next attempt lies a second after the latest one. */
  ghost predicate Spaced(log: Log) {
    LatestStart(log) >= 0 ==>
      var next := SaturatingAdd(log[LatestStart(log)].at, SECOND);
      && (EventDeadline(log).Some? ==> EventDeadline(log).value >= next)
      && (!InFlight(log) ==>
            && (Floor(log).Some? ==> Floor(log).value >= next)
            && (InventoryNeeded(log) || !Listening(log) ==> Floor(log).Some?)
            && (Floor(log).None? && LatestSuccess(log).Some? ==> LatestSuccess(log).value >= log[LatestStart(log)].at))
  }

  lemma {:induction false} AlwaysSpaced(reconcile: nat, log: Log)
    requires Legal(reconcile, log) && ClockOrdered(log)
    ensures Spaced(log)
  {
    if log != [] && LatestStart(log) >= 0 && !Last(log).Started? {
      var front, e := Front(log), Last(log);
      assert ClockOrdered(front);
      AlwaysSpaced(reconcile, front);
      assert log[LatestStart(log)].at <= e.at;
      BackoffDoubles(EventAttempts(log));
      BackoffDoubles(FailuresSinceAccept(front));
      PendingHasDeadline(front);
      if InFlight(front) {
        FlightShape(reconcile, front);
      }
    }
  }

  /** Attempt starts lie at least one second apart. */
  lemma AttemptsSpaced(reconcile: nat, log: Log, p: nat, q: nat)
    requires Legal(reconcile, log) && ClockOrdered(log) && reconcile >= SECOND
    requires p < q < |log| && log[p].Started? && log[q].Started?
    ensures log[q].at >= SaturatingAdd(log[p].at, SECOND)
  {
    LegalPrefix(reconcile, log, q);
    var before := log[..q];
    AlwaysSpaced(reconcile, before);
    var s := LatestStart(before);
    assert before[p].Started?;
    assert s >= p && log[s] == before[s] && log[s].at >= log[p].at;
  }

  /** Attempts that start in a window. */
  function StartsWithin(log: Log, from: nat, to: nat): nat {
    if log == [] then 0
    else StartsWithin(Front(log), from, to) + if Last(log).Started? && from <= Last(log).at <= to then 1 else 0
  }

  lemma {:induction false} LatestWithin(reconcile: nat, log: Log, from: nat, to: nat)
    requires Legal(reconcile, log) && ClockOrdered(log) && reconcile >= SECOND
    requires to + SECOND <= MAX_DURATION
    ensures StartsWithin(log, from, to) > 0 ==>
              exists p :: 0 <= p < |log| && log[p].Started? && log[p].at <= to &&
                          log[p].at >= from + (StartsWithin(log, from, to) - 1) * SECOND
  {
    if log != [] {
      var front := Front(log);
      LatestWithin(reconcile, front, from, to);
      var last := |log| - 1;
      if StartsWithin(front, from, to) > 0 {
        var p :| 0 <= p < |front| && front[p].Started? && front[p].at <= to &&
                 front[p].at >= from + (StartsWithin(front, from, to) - 1) * SECOND;
        assert log[p] == front[p];
        if log[last].Started? {
          AttemptsSpaced(reconcile, log, p, last);
        }
      } else {
        assert log[last] == Last(log);
      }
    }
  }

  /** No window of w seconds holds more than w + 1 attempts. */
  lemma AttemptRate(reconcile: nat, log: Log, from: nat, w: nat)
    requires Legal(reconcile, log) && ClockOrdered(log) && reconcile >= SECOND
    requires from + (w + 1) * SECOND <= MAX_DURATION
    ensures StartsWithin(log, from, from + w * SECOND) <= w + 1
  {
    LatestWithin(reconcile, log, from, from + w * SECOND);
  }

  /** The failure floor is hard: nothing starts before the delay of the latest failure has passed. */
  lemma HardFloor(reconcile: nat, log: Log, p: nat, q: nat)
    requires Legal(reconcile, log) && p < q < |log|
    requires Fails(log[p]) && (log[q].Started? || log[q].Subscribed?)
    requires forall i :: p < i < q ==> !Fails(log[i]) && !log[i].Accepted?
    ensures log[q].at >= SaturatingAdd(log[p].at, Backoff(FailuresSinceAccept(log[..p])))
  {
    LegalPrefix(reconcile, log, q);
    FloorOfLatestFailure(log[..q], p);
    assert log[..q][..p] == log[..p];
  }

  lemma {:induction false} FloorOfLatestFailure(log: Log, p: nat)
    requires p < |log| && Fails(log[p])
    requires forall i :: p < i < |log| ==> !Fails(log[i]) && !log[i].Accepted?
    ensures Floor(log) == Some(SaturatingAdd(log[p].at, Backoff(FailuresSinceAccept(log[..p]))))
  {
    if p == |log| - 1 {
      assert Front(log) == log[..p];
    } else {
      assert Front(log)[..p] == log[..p];
      FloorOfLatestFailure(Front(log), p);
    }
  }

  // ---------- availability ----------

  ghost predicate NoLossAfter(log: Log, q: nat) {
    forall i :: q < i < |log| ==> !log[i].Lost?
  }

  /** A table is available exactly when some inventory was accepted since the last loss; it is the latest one's. */
  lemma {:induction false} AvailableIff(log: Log)
    ensures Available(log).Some? <==> exists q :: 0 <= q < |log| && log[q].Accepted? && NoLossAfter(log, q)
    ensures forall q :: 0 <= q < |log| && log[q].Accepted? && NoLossAfter(log, q) &&
                        (forall i :: q < i < |log| ==> !log[i].Accepted?) ==>
              Available(log) == Some(log[q].links)
  {
    if log != [] {
      var front, last := Front(log), |log| - 1;
      AvailableIff(front);
      assert forall i :: 0 <= i < last ==> front[i] == log[i];
      assert NoLossAfter(log, last);
      forall q | 0 <= q < last ensures NoLossAfter(log, q) <==> NoLossAfter(front, q) && !log[last].Lost? {
      }
    }
  }

  /** A table is available only while subscribed. */
  lemma {:induction false} AvailableWhileListening(reconcile: nat, log: Log)
    requires Legal(reconcile, log) && Available(log).Some?
    ensures Listening(log)
  {
    if Last(log).Accepted? {
      FlightShape(reconcile, Front(log));
    } else {
      AvailableWhileListening(reconcile, Front(log));
    }
  }

  /** Between attempts a table is available unless an inventory is needed. */
  lemma {:induction false} AvailableWhenSatisfied(reconcile: nat, log: Log)
    requires Legal(reconcile, log) && !InFlight(log) && !InventoryNeeded(log)
    ensures Available(log).Some?
  {
    if !Last(log).Accepted? {
      AvailableWhenSatisfied(reconcile, Front(log));
    }
  }

  /** The available table carries the tag of the current continuity generation. */
  lemma AvailableIsCurrent(reconcile: nat, log: Log, q: nat)
    requires Legal(reconcile, log) && q < |log| && log[q].Accepted? && NoLossAfter(log, q)
    ensures log[q].tag == Losses(log) % GENERATIONS
  {
    LegalPrefix(reconcile, log, q);
    NothingLost(log, q);
  }

  lemma {:induction false} NothingLost(log: Log, p: nat)
    requires p <= |log| && forall i :: p <= i < |log| ==> !log[i].Lost?
    ensures Losses(log) == Losses(log[..p])
  {
    if p == |log| {
      assert log[..p] == log;
    } else {
      assert Front(log)[..p] == log[..p];
      NothingLost(Front(log), p);
    }
  }

  lemma {:induction false} ResubscribedSinceLoss(log: Log, p: nat)
    requires Listening(log) && p < |log| && log[p].Lost?
    ensures exists r :: p < r < |log| && log[r].Subscribed?
  {
    if Last(log).Subscribed? {
      assert log[|log| - 1].Subscribed?;
    } else {
      ResubscribedSinceLoss(Front(log), p);
      var r :| p < r < |Front(log)| && Front(log)[r].Subscribed?;
      assert log[r].Subscribed?;
    }
  }

  /** After a loss, only a new subscription followed by a new inventory brings a table back. */
  lemma RecoveryOrder(reconcile: nat, log: Log, p: nat, q: nat)
    requires Legal(reconcile, log) && p < q < |log| && log[p].Lost? && log[q].Accepted?
    ensures exists r, s :: p < r < s < q && log[r].Subscribed? && log[s].Started?
  {
    LegalPrefix(reconcile, log, q);
    var before := log[..q];
    FlightShape(reconcile, before);
    var s := LatestStart(before);
    assert before[p].Lost?;
    assert p < s;
    LegalPrefix(reconcile, log, s);
    assert log[s] == before[s];
    ResubscribedSinceLoss(log[..s], p);
    var r :| p < r < s && log[..s][r].Subscribed?;
    assert log[r].Subscribed? && log[s].Started?;
  }

  lemma {:induction false} LossesGrow(log: Log, p: nat)
    requires p <= |log|
    ensures Losses(log) >= Losses(log[..p])
    ensures (exists i :: p <= i < |log| && log[i].Lost?) ==> Losses(log) > Losses(log[..p])
  {
    if p == |log| {
      assert log[..p] == log;
    } else {
      assert Front(log)[..p] == log[..p];
      LossesGrow(Front(log), p);
      if i :| p <= i < |log| && log[i].Lost? {
        assert i < |log| - 1 ==> Front(log)[i].Lost?;
      }
    }
  }

  /** A completion tagged with the generation of an earlier moment publishes only if nothing was lost since. */
  lemma StaleNeverPublishes(reconcile: nat, log: Log, p: nat, q: nat)
    requires Legal(reconcile, log) && p <= q < |log| && log[q].Accepted?
    requires log[q].tag == Losses(log[..p]) % GENERATIONS && Losses(log) < GENERATIONS
    ensures forall i :: p <= i < q ==> !log[i].Lost?
  {
    LegalPrefix(reconcile, log, q);
    LossesGrow(log, q);
    LossesGrow(log[..q], p);
    assert log[..q][..p] == log[..p];
    assert forall i :: p <= i < q ==> log[..q][i] == log[i];
  }
}
