/**
 * The history of a monitor run, how its quantities are read off it, and what a legal history is.
 * Nothing here mentions the monitor's variables: module Monitor proves that every run writes a legal
 * history and that its variables are exactly the readings defined here.
 */
module History {
  import opened Durations
  import opened Links
  import opened Mib
  import opened Wrappers

  // The continuity counter is a wrapping u64.
  const GENERATIONS: nat := 0x1_0000_0000_0000_0000

  datatype Entry =
    | Subscribed(at: nat)
    | Started(at: nat)                                         // an inventory attempt begins
    | Recorded(at: nat)                                        // a link event enters the event schedule
    | Ignored(at: nat)                                         // a link event of a batch that was rejected
    | Accepted(tag: nat, links: seq<ObservedLink>, at: nat)    // the attempt publishes
    | Failed(at: nat)
    | Lost(at: nat)                                            // continuity is lost; also counts as a failure

  type Log = seq<Entry>

  function Front(log: Log): Log
    requires log != []
  {
    log[..|log| - 1]
  }

  function Last(log: Log): Entry
    requires log != []
  {
    log[|log| - 1]
  }

  predicate Fails(e: Entry) {
    e.Failed? || e.Lost?
  }

  // ---------- readings of a history ----------

  function FailuresSinceAccept(log: Log): nat {
    if log == [] then 0
    else if Last(log).Accepted? then 0
    else FailuresSinceAccept(Front(log)) + if Fails(Last(log)) then 1 else 0
  }

  /** The failure floor: the latest failure plus the delay its rank calls for, until an acceptance. */
  function Floor(log: Log): Option<nat> {
    if log == [] || Last(log).Accepted? then None
    else if Fails(Last(log)) then Some(SaturatingAdd(Last(log).at, Backoff(FailuresSinceAccept(Front(log)))))
    else Floor(Front(log))
  }

  function LatestEvent(log: Log): Option<nat> {
    if log == [] then None
    else if Last(log).Recorded? then Some(Last(log).at)
    else LatestEvent(Front(log))
  }

  /** Sixty seconds without events, or no event at all, before one at `at`. */
  predicate Quiet(log: Log, at: nat) {
    LatestEvent(log).None? || SaturatingSub(at, LatestEvent(log).value) >= EVENT_RESET
  }

  /** An event waits for the next attempt. */
  predicate EventPending(log: Log) {
    log != [] && !Last(log).Started? && (Last(log).Recorded? || EventPending(Front(log)))
  }

  /** Attempts that consumed events since the last quiet reset. */
  function EventAttempts(log: Log): nat {
    if log == [] then 0
    else if Last(log).Recorded? && Quiet(Front(log), Last(log).at) then 0
    else EventAttempts(Front(log)) + if Last(log).Started? && EventPending(Front(log)) then 1 else 0
  }

  /** The first event since the latest attempt, plus the delay its rank calls for. */
  function EventDeadline(log: Log): Option<nat> {
    if log == [] || Last(log).Started? then None
    else if Last(log).Recorded? && !EventPending(Front(log)) then
      Some(SaturatingAdd(Last(log).at, Backoff(EventAttempts(log))))
    else EventDeadline(Front(log))
  }

  function LatestSuccess(log: Log): Option<nat> {
    if log == [] then None
    else if Last(log).Accepted? then Some(Last(log).at)
    else LatestSuccess(Front(log))
  }

  function Losses(log: Log): nat {
    if log == [] then 0 else Losses(Front(log)) + if Last(log).Lost? then 1 else 0
  }

  predicate Listening(log: Log) {
    log != [] && !Last(log).Lost? && (Last(log).Subscribed? || Listening(Front(log)))
  }

  /** An inventory is due whatever the clock says: at startup, after a subscription, after a failure. */
  predicate InventoryNeeded(log: Log) {
    log == [] || Last(log).Subscribed? || Fails(Last(log)) || (!Last(log).Started? && InventoryNeeded(Front(log)))
  }

  /** An attempt has begun and has neither been accepted nor failed. */
  predicate InFlight(log: Log) {
    log != [] && (Last(log).Started? || (!Last(log).Accepted? && !Fails(Last(log)) && InFlight(Front(log))))
  }

  /** No event has been ignored since the latest attempt began. */
  predicate Untainted(log: Log) {
    log == [] || Last(log).Started? || (!Last(log).Ignored? && Untainted(Front(log)))
  }

  /** The links of the latest acceptance, unless continuity has been lost since. */
  function Available(log: Log): Option<seq<ObservedLink>> {
    if log == [] || Last(log).Lost? then None
    else if Last(log).Accepted? then Some(Last(log).links)
    else Available(Front(log))
  }

  /** What readers of the publication see. */
  ghost function Published(log: Log): Option<Table> {
    match Available(log)
    case None => None
    case Some(links) => Some(TableOf(TopologyOf(links)))
  }

  /** A write to the publication. */
  datatype Publishing = Publish(table: Table) | Withdraw

  /** An acceptance publishes, a loss withdraws. */
  ghost function WritesOf(e: Entry): seq<Publishing> {
    if e.Accepted? then [Publish(TableOf(TopologyOf(e.links)))]
    else if e.Lost? then [Withdraw]
    else []
  }

  /** The writes that a history calls for. */
  ghost function StepsOf(log: Log): seq<Publishing> {
    if log == [] then [] else StepsOf(Front(log)) + WritesOf(Last(log))
  }

  // ---------- legal histories ----------

  predicate FloorPassed(log: Log, at: nat) {
    Floor(log).None? || at >= Floor(log).value
  }

  predicate AttemptDue(reconcile: nat, log: Log, at: nat) {
    && FloorPassed(log, at)
    && (|| InventoryNeeded(log)
        || (EventDeadline(log).Some? && at >= EventDeadline(log).value)
        || (LatestSuccess(log).Some? && at >= SaturatingAdd(LatestSuccess(log).value, reconcile)))
  }

  /** `e` may follow `log`. */
  predicate MayFollow(reconcile: nat, log: Log, e: Entry) {
    match e
    case Subscribed(at) => !InFlight(log) && !Listening(log) && FloorPassed(log, at)
    case Started(at) => !InFlight(log) && Listening(log) && AttemptDue(reconcile, log, at)
    case Recorded(_) => true
    case Ignored(_) => InFlight(log)
    case Accepted(tag, links, _) =>
      InFlight(log) && Untainted(log) && WellFormed(links) && tag == Losses(log) % GENERATIONS
    case Failed(_) => true
    case Lost(_) => true
  }

  predicate Legal(reconcile: nat, log: Log) {
    log == [] || (Legal(reconcile, Front(log)) && MayFollow(reconcile, Front(log), Last(log)))
  }

  lemma {:induction false} LegalPrefix(reconcile: nat, log: Log, p: nat)
    requires Legal(reconcile, log) && p <= |log|
    ensures Legal(reconcile, log[..p])
    ensures p < |log| ==> MayFollow(reconcile, log[..p], log[p])
  {
    if p < |log| {
      if p == |log| - 1 {
        assert log[..p] == Front(log);
      } else {
        LegalPrefix(reconcile, Front(log), p);
        assert Front(log)[..p] == log[..p];
      }
    } else {
      assert log[..p] == log;
    }
  }
}
