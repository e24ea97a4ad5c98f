/**
 * What the monitor owes to the change notifications the kernel sends, over whole runs on the production adapter.
 */
module Freshness {
  import opened Adapter
  import opened Durations
  import opened Framing
  import opened Guarantees
  import opened History
  import opened Monitor
  import opened Netlink
  import opened Provenance
  import opened Runs
  import opened System
  import opened Wrappers

  // ---------- a notification the kernel sent is never forgotten ----------

  /** The times of the change notifications that reach the adapter's sockets in one iteration and are read. */
  function ChangesIn(codec: Codec<Message>, w: Joint, io: Io): seq<nat> {
    if Acquires(w, io) then
      if io.dumpOpens && io.sends then ChangesRead(RequestIn(codec, w, io), io.polls, |io.polls|) else []
    else if w.schedule.TrySubscribe(Asked(io)).subscribed && Reports(codec, io.idle) then [io.idle.eventAt]
    else []
  }

  function LastChange(codec: Codec<Message>, w: Joint, io: Io): nat
    requires ChangesIn(codec, w, io) != []
  {
    var changes := ChangesIn(codec, w, io);
    changes[|changes| - 1]
  }

  /** The history only grows. */
  lemma TakeGrows(s: Schedule, t: Turn)
    ensures s.log <= s.Take(t).log
  {
    var u := s.TrySubscribe(t);
    assert s.log <= u.log;
    var begun := u.Start(t.ready);
    assert s.log <= begun.log;
    assert s.log <= begun.Ignore(t.acquisition.events).log;
    assert s.log <= begun.RecordBatch(t.acquisition.events).log;
  }

  lemma {:induction false} TraceGrows(codec: Codec<Message>, reconcile: nat, ios: seq<Io>, trace: seq<Joint>, i: nat,
                                      k: nat)
    requires Trace(codec, reconcile, ios, trace) && i <= k <= |ios|
    ensures trace[i].schedule.log <= trace[k].schedule.log
  {
    if i < k {
      TraceGrows(codec, reconcile, ios, trace, i, k - 1);
      TakeGrows(trace[k - 1].schedule, Heard(codec, trace[k - 1], ios[k - 1]));
      assert Follows(codec, ios, trace, k - 1);
    }
  }

  /** The batch of the attempt reaches record_batch. */
  predicate Heeded(s: Schedule, t: Turn) {
    t.acquisition.Completed? ==> t.acquisition.tag == s.continuity
  }

  /** An attempt that hears a batch leaves its last event in the history, after everything that was there before. */
  lemma BatchEnters(s: Schedule, t: Turn) returns (p: nat)
    requires s.Attempts(t) && t.acquisition.events.last.Some?
    ensures EntersAt(s.log, s.Take(t).log, p, t.acquisition.events.last.value) && NoStartAfter(s.Take(t).log, p)
  {
    var begun := s.TrySubscribe(t).Start(t.ready);
    var events := t.acquisition.events;
    var heard := if Heeded(begun, t) then begun.RecordBatch(events) else begun.Ignore(events);
    p := |heard.log| - 1;
    assert |s.log| <= |begun.log|;
    assert heard.log[p].at == events.last.value && Observes(heard.log[p]);
    assert heard.log <= s.Take(t).log;
  }

  lemma WaitEnters(s: Schedule, t: Turn) returns (p: nat)
    requires !s.Attempts(t) && t.wait.LinkChanged?
    ensures EntersAt(s.log, s.Take(t).log, p, t.wait.at) && NoStartAfter(s.Take(t).log, p)
  {
    p := |s.TrySubscribe(t).log|;
  }

  lemma ChangeEnters(s: Schedule, t: Turn, at: nat) returns (p: nat)
    requires if s.Attempts(t) then t.acquisition.events.last == Some(at) else t.wait == LinkChanged(at)
    ensures EntersAt(s.log, s.Take(t).log, p, at) && NoStartAfter(s.Take(t).log, p)
  {
    if s.Attempts(t) {
      p := BatchEnters(s, t);
    } else {
      p := WaitEnters(s, t);
    }
  }

  /** A change at time `at` is entry `p`, which is new since `before`. */
  predicate EntersAt(before: Log, log: Log, p: nat, at: nat) {
    |before| <= p < |log| && Observes(log[p]) && log[p].at == at
  }

  /** No attempt has begun after entry `p`. */
  ghost predicate NoStartAfter(log: Log, p: nat) {
    forall s :: p < s < |log| ==> !log[s].Started?
  }

  /** The change notifications an iteration receives are what the monitor hears of. */
  lemma ChangesHeard(codec: Codec<Message>, w: Joint, io: Io)
    requires ChangesIn(codec, w, io) != []
    ensures var t := Heard(codec, w, io);
            if w.schedule.Attempts(t) then t.acquisition.events.last == Some(LastChange(codec, w, io))
            else t.wait == LinkChanged(LastChange(codec, w, io))
  {
    if Acquires(w, io) {
      OutcomeEvents(RequestIn(codec, w, io), w.schedule.continuity, io.polls);
    }
  }

  /** Every iteration that receives change notifications leaves the last one in the history. */
  lemma ChangesEnter(codec: Codec<Message>, w: Joint, io: Io) returns (p: nat)
    requires ChangesIn(codec, w, io) != []
    ensures EntersAt(w.schedule.log, w.schedule.Take(Heard(codec, w, io)).log, p, LastChange(codec, w, io))
    ensures NoStartAfter(w.schedule.Take(Heard(codec, w, io)).log, p)
  {
    ChangesHeard(codec, w, io);
    p := ChangeEnters(w.schedule, Heard(codec, w, io), LastChange(codec, w, io));
  }

  lemma ChangesAt(codec: Codec<Message>, reconcile: nat, ios: seq<Io>, trace: seq<Joint>, i: nat) returns (p: nat)
    requires Trace(codec, reconcile, ios, trace) && i < |ios| && ChangesIn(codec, trace[i], ios[i]) != []
    ensures EntersAt(trace[i].schedule.log, trace[i + 1].schedule.log, p, LastChange(codec, trace[i], ios[i]))
    ensures NoStartAfter(trace[i + 1].schedule.log, p)
  {
    p := ChangesEnter(codec, trace[i], ios[i]);
    assert Follows(codec, ios, trace, i);
  }

  /** What entered the history stays there. */
  lemma ChangesStay(codec: Codec<Message>, reconcile: nat, ios: seq<Io>, trace: seq<Joint>, i: nat, k: nat)
    returns (p: nat)
    requires Trace(codec, reconcile, ios, trace) && i < k <= |ios| && ChangesIn(codec, trace[i], ios[i]) != []
    ensures EntersAt(trace[i].schedule.log, trace[k].schedule.log, p, LastChange(codec, trace[i], ios[i]))
    ensures p < |trace[i + 1].schedule.log| && NoStartAfter(trace[i + 1].schedule.log, p)
  {
    p := ChangesAt(codec, reconcile, ios, trace, i);
    TraceGrows(codec, reconcile, ios, trace, i + 1, k);
  }

  /** At every loop head an observed change has been covered by a later inventory or has an attempt scheduled. */
  lemma ObservedForces(codec: Codec<Message>, reconcile: nat, ios: seq<Io>, trace: seq<Joint>, k: nat, p: nat)
    requires Trace(codec, reconcile, ios, trace) && k <= |ios|
    requires p < |trace[k].schedule.log| && Observes(trace[k].schedule.log[p])
    ensures var s := trace[k].schedule;
            Superseded(s.log, p) || s.needsInventory || s.eventDeadline.Some?
  {
    TraceIsRun(codec, reconcile, ios, trace, k);
    if !Superseded(trace[k].schedule.log, p) {
      RunForgetsNothing(reconcile, TurnsOf(codec, ios, trace)[..k], p);
    }
  }

  /**
   * End to end: once iteration `i` has received change notifications from the kernel, then at every later loop head
   * either an inventory that began after them has been accepted, or an attempt is scheduled.
   */
  lemma NotificationsForceInventory(codec: Codec<Message>, reconcile: nat, ios: seq<Io>, trace: seq<Joint>, i: nat,
                                    k: nat)
    returns (p: nat)
    requires Trace(codec, reconcile, ios, trace) && i < k <= |ios| && ChangesIn(codec, trace[i], ios[i]) != []
    ensures var s := trace[k].schedule;
            && EntersAt(trace[i].schedule.log, s.log, p, LastChange(codec, trace[i], ios[i]))
            && (Superseded(s.log, p) || s.needsInventory || s.eventDeadline.Some?)
  {
    p := ChangesStay(codec, reconcile, ios, trace, i, k);
    ObservedForces(codec, reconcile, ios, trace, k, p);
  }

  // ---------- at rest, the published table is fresh ----------

  /** Something is due without waiting for the reconcile interval. */
  predicate Scheduled(s: Schedule) {
    s.needsInventory || s.eventDeadline.Some?
  }

  /** Whatever is scheduled stays scheduled until an inventory is accepted. */
  lemma ScheduledStays(s: Schedule, t: Turn)
    requires Scheduled(s) && !Publishes(s, t)
    ensures Scheduled(s.Take(t))
  {
    assert Scheduled(s.TrySubscribe(t));
  }

  /** An iteration that hears of a change leaves something scheduled, even when it publishes. */
  lemma ChangeSchedules(s: Schedule, t: Turn)
    requires if s.Attempts(t) then t.acquisition.events.last.Some? else t.wait.LinkChanged?
    ensures Scheduled(s.Take(t))
  {
  }

  lemma {:induction false} StaysScheduled(codec: Codec<Message>, reconcile: nat, ios: seq<Io>, trace: seq<Joint>,
                                          m: nat, k: nat)
    requires Trace(codec, reconcile, ios, trace) && m <= k <= |ios| && Scheduled(trace[m].schedule)
    requires forall j :: m <= j < k ==> !PublishesAt(codec, ios, trace, j)
    ensures Scheduled(trace[k].schedule)
  {
    if m < k {
      StaysScheduled(codec, reconcile, ios, trace, m, k - 1);
      assert !PublishesAt(codec, ios, trace, k - 1);
      ScheduledStays(trace[k - 1].schedule, Heard(codec, trace[k - 1], ios[k - 1]));
      assert Follows(codec, ios, trace, k - 1);
    }
  }

  lemma ChangeScheduledAt(codec: Codec<Message>, reconcile: nat, ios: seq<Io>, trace: seq<Joint>, i: nat)
    requires Trace(codec, reconcile, ios, trace) && i < |ios|
    requires ChangesIn(codec, trace[i], ios[i]) != []
    ensures Scheduled(trace[i + 1].schedule)
  {
    assert Follows(codec, ios, trace, i);
    ChangesHeard(codec, trace[i], ios[i]);
    ChangeSchedules(trace[i].schedule, Heard(codec, trace[i], ios[i]));
  }

  /** A change read in iteration `i` keeps something scheduled until a later iteration publishes. */
  lemma ChangeKeepsScheduled(codec: Codec<Message>, reconcile: nat, ios: seq<Io>, trace: seq<Joint>, i: nat, k: nat)
    requires Trace(codec, reconcile, ios, trace) && i < k <= |ios| && ChangesIn(codec, trace[i], ios[i]) != []
    requires forall j :: i < j < k ==> !PublishesAt(codec, ios, trace, j)
    ensures Scheduled(trace[k].schedule)
  {
    ChangeScheduledAt(codec, reconcile, ios, trace, i);
    StaysScheduled(codec, reconcile, ios, trace, i + 1, k);
  }

  /**
   * At rest the published table is fresh: whenever nothing is scheduled, a table is published, it is the table of a
   * whole dump, the monitor has been subscribed and the stream unbroken since, and no change notification has been
   * read since that dump was requested.
   */
  lemma FreshAtRest(codec: Codec<Message>, reconcile: nat, ios: seq<Io>, trace: seq<Joint>, k: nat)
    returns (j: nat, n: nat)
    requires Trace(codec, reconcile, ios, trace) && k <= |ios| && !Scheduled(trace[k].schedule)
    ensures j < k && Supplies(codec, trace[j], ios[j], n)
    ensures Published(trace[k].schedule.log) == TableFrom(LinksIn(codec, trace[j], ios[j], n))
    ensures forall m :: j < m <= k ==> trace[m].schedule.subscribed
    ensures forall m :: j < m < k ==> !Broken(codec, trace[m], ios[m])
    ensures forall i :: j <= i < k ==> ChangesIn(codec, trace[i], ios[i]) == []
  {
    RestIsAvailable(codec, reconcile, ios, trace, k);
    j, n := PublishedIsDump(codec, reconcile, ios, trace, k);
    forall i | j <= i < k ensures ChangesIn(codec, trace[i], ios[i]) == [] {
      if ChangesIn(codec, trace[i], ios[i]) != [] {
        ChangeKeepsScheduled(codec, reconcile, ios, trace, i, k);
        assert false;
      }
    }
  }

  lemma RestIsAvailable(codec: Codec<Message>, reconcile: nat, ios: seq<Io>, trace: seq<Joint>, k: nat)
    requires Trace(codec, reconcile, ios, trace) && k <= |ios| && !Scheduled(trace[k].schedule)
    ensures Published(trace[k].schedule.log).Some?
  {
    TraceIsRun(codec, reconcile, ios, trace, k);
    RunsAreLegal(reconcile, TurnsOf(codec, ios, trace)[..k]);
    AvailableWhenSatisfied(reconcile, trace[k].schedule.log);
  }

  // ---------- the reaction bound over the adapter ----------

  /** `after` extends `before` without an acceptance. */
  ghost predicate NoneAccepted(before: Log, after: Log) {
    before <= after && forall q :: |before| <= q < |after| ==> !after[q].Accepted?
  }

  lemma NoneAcceptedMore(before: Log, after: Log, e: Entry)
    requires NoneAccepted(before, after) && !e.Accepted?
    ensures NoneAccepted(before, after + [e])
  {
  }

  lemma BatchAcceptsNothing(before: Log, s: Schedule, b: EventBatch)
    requires NoneAccepted(before, s.log)
    ensures NoneAccepted(before, s.RecordBatch(b).log) && NoneAccepted(before, s.Ignore(b).log)
  {
    var first := if b.first.Some? then [Ignored(b.first.value)] else [];
    assert NoneAccepted(before, s.log + first);
    assert NoneAccepted(before, s.Ignore(b).log);
  }

  /** Only an accepted attempt writes an acceptance. */
  lemma AcceptedByPublishing(s: Schedule, t: Turn)
    requires !Publishes(s, t)
    ensures NoneAccepted(s.log, s.Take(t).log)
  {
    var u := s.TrySubscribe(t);
    assert NoneAccepted(s.log, u.log);
    if s.Attempts(t) {
      var begun := u.Start(t.ready);
      NoneAcceptedMore(s.log, u.log, Started(t.ready));
      BatchAcceptsNothing(s.log, begun, t.acquisition.events);
      var recorded, ignored := begun.RecordBatch(t.acquisition.events), begun.Ignore(t.acquisition.events);
      NoneAcceptedMore(s.log, recorded.log, Failed(t.failedAt));
      NoneAcceptedMore(s.log, recorded.log, Lost(t.failedAt));
      NoneAcceptedMore(s.log, ignored.log, Failed(t.failedAt));
    }
  }

  lemma SupersededByPublishing(s: Schedule, t: Turn, p: nat)
    requires p < |s.log| && !Publishes(s, t)
    ensures p < |s.Take(t).log|
    ensures Superseded(s.Take(t).log, p) ==> Superseded(s.log, p)
  {
    var log := s.Take(t).log;
    AcceptedByPublishing(s, t);
    if b, q :| p < b < q < |log| && log[b].Started? && log[q].Accepted? {
      assert s.log[b].Started? && s.log[q].Accepted?;
    }
  }

  lemma {:induction false} StaysOutstanding(codec: Codec<Message>, reconcile: nat, ios: seq<Io>, trace: seq<Joint>,
                                            m: nat, k: nat, p: nat)
    requires Trace(codec, reconcile, ios, trace) && m <= k <= |ios|
    requires p < |trace[m].schedule.log| && NoStartAfter(trace[m].schedule.log, p)
    requires forall j :: m <= j < k ==> !PublishesAt(codec, ios, trace, j)
    ensures p < |trace[k].schedule.log| && !Superseded(trace[k].schedule.log, p)
  {
    if m < k {
      StaysOutstanding(codec, reconcile, ios, trace, m, k - 1, p);
      assert Follows(codec, ios, trace, k - 1);
      assert !PublishesAt(codec, ios, trace, k - 1);
      SupersededByPublishing(trace[k - 1].schedule, Heard(codec, trace[k - 1], ios[k - 1]), p);
    }
  }

  /** Thirty seconds after the change, and after the latest failure if there was one. */
  predicate Overdue(log: Log, change: nat, now: nat) {
    && now >= SaturatingAdd(change, MAX_DELAY)
    && (LatestFailure(log).Some? ==> now >= SaturatingAdd(LatestFailure(log).value, MAX_DELAY))
  }

  /**
   * With ordered clocks, an iteration that begins 30 s after a change was read and after the latest failure, and can
   * subscribe if it has to, requests an inventory, unless a dump requested after the change has been published.
   */
  lemma ReactsWithinThirtySeconds(codec: Codec<Message>, reconcile: nat, ios: seq<Io>, trace: seq<Joint>, i: nat,
                                  k: nat, next: Io)
    requires Trace(codec, reconcile, ios, trace) && IosOrdered(ios)
    requires i < k <= |ios| && ChangesIn(codec, trace[i], ios[i]) != []
    requires forall j :: i < j < k ==> !Supplied(codec, trace[j], ios[j])
    requires next.now <= next.ready && next.opens
    requires Overdue(trace[k].schedule.log, LastChange(codec, trace[i], ios[i]), next.now)
    ensures Acquires(trace[k], next)
  {
    var p := ChangesStay(codec, reconcile, ios, trace, i, k);
    forall j | i < j < k ensures !PublishesAt(codec, ios, trace, j) {
      UnsuppliedHolds(codec, trace[j], ios[j]);
    }
    StaysOutstanding(codec, reconcile, ios, trace, i + 1, k, p);
    OverdueAcquires(codec, reconcile, ios, trace, k, p, next);
  }

  lemma UnsuppliedHolds(codec: Codec<Message>, w: Joint, io: Io)
    requires !Supplied(codec, w, io)
    ensures !Publishes(w.schedule, Heard(codec, w, io))
  {
    if Publishes(w.schedule, Heard(codec, w, io)) {
      var n := PublishingIsSupplied(codec, w, io);
    }
  }

  lemma OverdueAcquires(codec: Codec<Message>, reconcile: nat, ios: seq<Io>, trace: seq<Joint>, k: nat, p: nat,
                        next: Io)
    requires Trace(codec, reconcile, ios, trace) && IosOrdered(ios) && k <= |ios|
    requires Outstanding(trace[k].schedule.log, p)
    requires next.now <= next.ready && next.opens
    requires Overdue(trace[k].schedule.log, trace[k].schedule.log[p].at, next.now)
    ensures Acquires(trace[k], next)
  {
    var turns := TurnsOf(codec, ios, trace);
    TraceIsRun(codec, reconcile, ios, trace, k);
    HeardInOrder(codec, ios, trace);
    FirstTurnsOrdered(turns, k);
    RunOrdered(reconcile, turns[..k], Horizon(turns[..k]));
    RunReactsInTime(reconcile, turns[..k], p, next.now);
  }

  lemma FirstTurnsOrdered(turns: seq<Turn>, k: nat)
    requires TurnsOrdered(turns) && k <= |turns|
    ensures TurnsOrdered(turns[..k])
  {
    assert forall i :: 0 <= i < k ==> turns[..k][i] == turns[i];
  }
}
