/** src/netlink.rs: NetlinkSource, the acquisition interface over two netlink sockets. */
module Adapter {
  import opened Framing
  import opened Links
  import opened Monitor
  import opened Netlink
  import opened Numbers
  import opened Sequences
  import opened Wrappers

  const SEQUENCES: nat := 0x1_0000_0000

  // ---------- what a series of polls delivers ----------

  /** The parameters of one inventory's polling loop. */
  datatype Inquiry = Inquiry(
    decode: seq<Byte> -> Option<seq<Message>>,
    keeps: Option<Datagram> -> bool,
    changes: Option<Datagram> -> bool,
    rules: Rules,
    listening: bool,
    deadline: nat)

  /** The request the adapter makes with its codec and sequence number. */
  function RequestFor(codec: Codec<Message>, listening: bool, sequence: nat, deadline: nat): Inquiry {
    Inquiry(bytes => Decoded(codec, bytes), received => KeepsContinuity(codec, received),
            received => ReportsChange(codec, received), DumpRules(sequence), listening, deadline)
  }

  predicate HasDump(p: Poll) {
    p.ready.Some? && p.ready.value.dump
  }

  predicate DumpReadable(received: Option<Datagram>) {
    received.Some? && !received.value.truncated && received.value.fromKernel && received.value.bytes != []
  }

  /** Times of the change notifications consumed. */
  function Events(q: Inquiry, polls: seq<Poll>): seq<nat> {
    if polls == [] then []
    else
      var p := polls[|polls| - 1];
      Events(q, polls[..|polls| - 1]) +
      if p.ready.Some? && p.ready.value.notification && q.changes(p.notification) then [p.eventAt] else []
  }

  /** First and last of the event times. */
  function Span(times: seq<nat>): EventBatch {
    if times == [] then EventBatch(None, None) else EventBatch(Some(times[0]), Some(times[|times| - 1]))
  }

  function DumpBytes(polls: seq<Poll>): nat {
    if polls == [] then 0
    else
      var p := polls[|polls| - 1];
      DumpBytes(polls[..|polls| - 1]) + if HasDump(p) && p.dump.Some? then |p.dump.value.bytes| else 0
  }

  /** The messages one poll adds to the dump. */
  function DumpedBy(q: Inquiry, p: Poll): seq<Message> {
    if HasDump(p) && p.dump.Some? && q.decode(p.dump.value.bytes).Some? then q.decode(p.dump.value.bytes).value else []
  }

  /** The messages of all dump datagrams, concatenated. */
  function DumpMessages(q: Inquiry, polls: seq<Poll>): seq<Message> {
    if polls == [] then []
    else DumpMessages(q, polls[..|polls| - 1]) + DumpedBy(q, polls[|polls| - 1])
  }

  /** The batch after one more poll: the first event time stays, the last one moves. */
  function Extended(q: Inquiry, events: EventBatch, p: Poll): EventBatch {
    if p.ready.Some? && p.ready.value.notification && q.changes(p.notification)
    then EventBatch(if events.first.Some? then events.first else Some(p.eventAt), Some(p.eventAt))
    else events
  }

  lemma SpanExtends(q: Inquiry, polls: seq<Poll>, i: nat)
    requires i < |polls|
    ensures Span(Events(q, polls[..i + 1])) == Extended(q, Span(Events(q, polls[..i])), polls[i])
  {
    OneMorePoll(polls, i);
  }

  lemma OneMorePoll(polls: seq<Poll>, i: nat)
    requires i < |polls|
    ensures polls[..i + 1] != [] && polls[..i + 1][..i] == polls[..i] && polls[..i + 1][i] == polls[i]
  {
  }

  // ---------- the polling loop, turn by turn ----------

  datatype Verdict = Continues | TimesOut | LosesContinuity | FailsBeforeEvent | FailsAfterEvent | Completes

  /** What one turn of the loop does, `before` bytes into the dump. */
  function VerdictOf(q: Inquiry, before: nat, p: Poll): Verdict {
    if p.clock >= q.deadline then TimesOut
    else if !q.listening || p.ready.None? || p.ready.value.notificationFailed then LosesContinuity
    else if p.ready.value.dumpFailed then FailsBeforeEvent
    else if p.ready.value.notification && !q.keeps(p.notification) then LosesContinuity
    else if !p.ready.value.dump then Continues
    else if !DumpReadable(p.dump) then FailsAfterEvent
    else if before + |p.dump.value.bytes| > MAX_INVENTORY_BYTES then FailsAfterEvent
    else if q.decode(p.dump.value.bytes).None? then FailsAfterEvent
    else if IsDump(q.rules, DumpedBy(q, p)) then Completes
    else if AllLinks(q.rules, DumpedBy(q, p)) then Continues
    else FailsAfterEvent
  }

  function VerdictAt(q: Inquiry, polls: seq<Poll>, k: nat): Verdict
    requires k < |polls|
  {
    VerdictOf(q, DumpBytes(polls[..k]), polls[k])
  }

  /** The turn that ends the loop. */
  function Stop(q: Inquiry, polls: seq<Poll>, i: nat): (n: nat)
    requires i <= |polls|
    ensures i <= n <= |polls|
    ensures forall k :: i <= k < n ==> VerdictAt(q, polls, k) == Continues
    ensures n < |polls| ==> VerdictAt(q, polls, n) != Continues
    decreases |polls| - i
  {
    if i == |polls| || VerdictAt(q, polls, i) != Continues then i else Stop(q, polls, i + 1)
  }

  /** The result of an inventory. */
  function Outcome(q: Inquiry, tag: nat, polls: seq<Poll>): Acquisition {
    EndedAt(q, tag, polls, Stop(q, polls, 0))
  }

  /** The result of a loop that ends at turn `n`; when the polls run out, the clock has reached the deadline. */
  function EndedAt(q: Inquiry, tag: nat, polls: seq<Poll>, n: nat): Acquisition
    requires n <= |polls|
  {
    var before := Span(Events(q, polls[..n]));
    if n == |polls| then Ordinary(before)
    else
      var after := Span(Events(q, polls[..n + 1]));
      match VerdictAt(q, polls, n)
      case LosesContinuity => LostNotifications(before)
      case Completes => Completed(tag, FlatMap(LinkIn, DumpMessages(q, polls[..n + 1])), after)
      case FailsAfterEvent => Ordinary(after)
      case _ => Ordinary(before)
  }

  /** How many polls the loop gets to consume a notification from. */
  function Consumed(q: Inquiry, polls: seq<Poll>): (m: nat)
    ensures m <= |polls|
  {
    var n := Stop(q, polls, 0);
    if n == |polls| || VerdictAt(q, polls, n).TimesOut? || VerdictAt(q, polls, n).LosesContinuity? ||
       VerdictAt(q, polls, n).FailsBeforeEvent? then n
    else n + 1
  }

  lemma ConsumedEvents(q: Inquiry, tag: nat, polls: seq<Poll>)
    ensures Outcome(q, tag, polls).events == Span(Events(q, polls[..Consumed(q, polls)]))
  {
  }

  // ---------- acceptance is the dump grammar ----------

  /** No socket fails, nothing arrives late, and the notification stream stays intact. */
  predicate Healthy(q: Inquiry, p: Poll) {
    && q.listening
    && p.clock < q.deadline
    && p.ready.Some? && !p.ready.value.notificationFailed && !p.ready.value.dumpFailed
    && (p.ready.value.notification ==> q.keeps(p.notification))
    && (p.ready.value.dump ==> DumpReadable(p.dump) && q.decode(p.dump.value.bytes).Some?)
  }

  /** The first n + 1 polls deliver one complete dump, ending with the last datagram. */
  ghost predicate DumpArrives(q: Inquiry, polls: seq<Poll>, n: nat) {
    && n < |polls|
    && (forall k :: 0 <= k <= n ==> Healthy(q, polls[k]))
    && DumpedBy(q, polls[n]) != []
    && DumpBytes(polls[..n + 1]) <= MAX_INVENTORY_BYTES
    && IsDump(q.rules, DumpMessages(q, polls[..n + 1]))
  }

  lemma {:induction false} BytesGrow(polls: seq<Poll>, k: nat, n: nat)
    requires k <= n <= |polls|
    ensures DumpBytes(polls[..k]) <= DumpBytes(polls[..n])
  {
    if k < n {
      assert polls[..n][..n - 1] == polls[..n - 1];
      BytesGrow(polls, k, n - 1);
    }
  }

  /** A dump that fits into one datagram. */
  lemma DumpInOne(q: Inquiry, p: Poll)
    requires Healthy(q, p) && IsDump(q.rules, DumpedBy(q, p)) && DumpBytes([p]) <= MAX_INVENTORY_BYTES
    ensures DumpArrives(q, [p], 0) && DumpMessages(q, [p][..1]) == DumpedBy(q, p)
  {
    var polls := [p];
    OneMorePoll(polls, 0);
    assert polls[..0] == [] && polls[..1] == polls;
    assert DumpMessages(q, polls[..0 + 1]) == [] + DumpedBy(q, p) == DumpedBy(q, p);
  }

  /** The dump so far is all links when every datagram is. */
  lemma {:induction false} LinksGather(q: Inquiry, polls: seq<Poll>, n: nat)
    requires n <= |polls| && forall k :: 0 <= k < n ==> AllLinks(q.rules, DumpedBy(q, polls[k]))
    ensures AllLinks(q.rules, DumpMessages(q, polls[..n]))
  {
    if n > 0 {
      LinksGather(q, polls, n - 1);
      OneMorePoll(polls, n - 1);
      AllLinksConcat(q.rules, DumpMessages(q, polls[..n - 1]), DumpedBy(q, polls[n - 1]));
    }
  }

  /** Every datagram of a dump that is all links is all links. */
  lemma {:induction false} LinksScatter(q: Inquiry, polls: seq<Poll>, n: nat, k: nat)
    requires k < n <= |polls| && AllLinks(q.rules, DumpMessages(q, polls[..n]))
    ensures AllLinks(q.rules, DumpedBy(q, polls[k]))
  {
    OneMorePoll(polls, n - 1);
    AllLinksConcat(q.rules, DumpMessages(q, polls[..n - 1]), DumpedBy(q, polls[n - 1]));
    if k < n - 1 {
      LinksScatter(q, polls, n - 1, k);
    }
  }

  /** A dump split at its last datagram. */
  lemma DumpSplits(rules: Rules, front: seq<Message>, last: seq<Message>)
    requires last != []
    ensures IsDump(rules, front + last) <==> AllLinks(rules, front) && IsDump(rules, last)
  {
    var all := front + last;
    assert all[..|all| - 1] == front + last[..|last| - 1];
    AllLinksConcat(rules, front, last[..|last| - 1]);
  }

  /** A turn that goes on leaves the sockets healthy and brings links only. */
  lemma ContinuingTurn(q: Inquiry, before: nat, p: Poll)
    requires VerdictOf(q, before, p) == Continues
    ensures Healthy(q, p) && AllLinks(q.rules, DumpedBy(q, p))
    ensures HasDump(p) ==> before + DumpBytes([p]) <= MAX_INVENTORY_BYTES
  {
    assert [p][..0] == [];
  }

  lemma CompletingTurn(q: Inquiry, before: nat, p: Poll)
    requires VerdictOf(q, before, p) == Completes
    ensures Healthy(q, p) && IsDump(q.rules, DumpedBy(q, p))
    ensures before + DumpBytes([p]) <= MAX_INVENTORY_BYTES
  {
    assert [p][..0] == [];
  }

  lemma CompletionIsDump(q: Inquiry, polls: seq<Poll>)
    requires Stop(q, polls, 0) < |polls| && VerdictAt(q, polls, Stop(q, polls, 0)) == Completes
    ensures DumpArrives(q, polls, Stop(q, polls, 0))
  {
    var n := Stop(q, polls, 0);
    forall k | 0 <= k < n ensures Healthy(q, polls[k]) && AllLinks(q.rules, DumpedBy(q, polls[k])) {
      assert VerdictAt(q, polls, k) == Continues;
      ContinuingTurn(q, DumpBytes(polls[..k]), polls[k]);
    }
    CompletingTurn(q, DumpBytes(polls[..n]), polls[n]);
    LinksGather(q, polls, n);
    OneMorePoll(polls, n);
    BytesOfPoll(polls, n);
    DumpSplits(q.rules, DumpMessages(q, polls[..n]), DumpedBy(q, polls[n]));
  }

  lemma LinksContinue(q: Inquiry, before: nat, p: Poll)
    requires Healthy(q, p) && AllLinks(q.rules, DumpedBy(q, p))
    requires HasDump(p) ==> before + DumpBytes([p]) <= MAX_INVENTORY_BYTES
    ensures VerdictOf(q, before, p) == Continues
  {
    assert [p][..0] == [];
    NotBoth(q.rules, DumpedBy(q, p));
  }

  lemma DumpCompletes(q: Inquiry, before: nat, p: Poll)
    requires Healthy(q, p) && IsDump(q.rules, DumpedBy(q, p))
    requires before + DumpBytes([p]) <= MAX_INVENTORY_BYTES
    ensures VerdictOf(q, before, p) == Completes
  {
    assert [p][..0] == [];
  }

  lemma BytesOfPoll(polls: seq<Poll>, k: nat)
    requires k < |polls|
    ensures DumpBytes(polls[..k + 1]) == DumpBytes(polls[..k]) + DumpBytes([polls[k]])
  {
    assert polls[..k + 1][..k] == polls[..k] && [polls[k]][..0] == [];
  }

  lemma DumpStops(q: Inquiry, polls: seq<Poll>, n: nat)
    requires DumpArrives(q, polls, n)
    ensures Stop(q, polls, 0) == n && VerdictAt(q, polls, n) == Completes
  {
    OneMorePoll(polls, n);
    DumpSplits(q.rules, DumpMessages(q, polls[..n]), DumpedBy(q, polls[n]));
    BytesOfPoll(polls, n);
    DumpCompletes(q, DumpBytes(polls[..n]), polls[n]);
    forall k | 0 <= k < n ensures VerdictAt(q, polls, k) == Continues {
      BytesOfPoll(polls, k);
      BytesGrow(polls, k + 1, n + 1);
      LinksScatter(q, polls, n, k);
      LinksContinue(q, DumpBytes(polls[..k]), polls[k]);
    }
    StopIs(q, polls, 0, n);
  }

  lemma CompletedOutcome(q: Inquiry, tag: nat, polls: seq<Poll>, n: nat)
    requires n < |polls| && Stop(q, polls, 0) == n && VerdictAt(q, polls, n) == Completes
    ensures Outcome(q, tag, polls) == Completed(tag, FlatMap(LinkIn, DumpMessages(q, polls[..n + 1])),
                                                Span(Events(q, polls[..n + 1])))
  {
  }

  lemma {:induction false} StopIs(q: Inquiry, polls: seq<Poll>, i: nat, n: nat)
    requires i <= n < |polls| && VerdictAt(q, polls, n) != Continues
    requires forall k :: i <= k < n ==> VerdictAt(q, polls, k) == Continues
    ensures Stop(q, polls, i) == n
    decreases n - i
  {
    if i < n {
      StopIs(q, polls, i + 1, n);
    }
  }

  /**
   * An inventory completes exactly when a whole dump, NewLink* Done(0), arrives in time over healthy sockets
   * within the byte limit; its links are the decoded messages in order.
   */
  lemma AcceptedIffDump(q: Inquiry, tag: nat, polls: seq<Poll>)
    ensures Outcome(q, tag, polls).Completed? <==> exists n :: DumpArrives(q, polls, n)
    ensures forall n :: DumpArrives(q, polls, n) ==>
              Outcome(q, tag, polls) == Completed(tag, FlatMap(LinkIn, DumpMessages(q, polls[..n + 1])),
                                                  Span(Events(q, polls[..n + 1])))
  {
    if Outcome(q, tag, polls).Completed? {
      CompletionIsDump(q, polls);
    }
    forall n | DumpArrives(q, polls, n)
      ensures Outcome(q, tag, polls) == Completed(tag, FlatMap(LinkIn, DumpMessages(q, polls[..n + 1])),
                                                  Span(Events(q, polls[..n + 1])))
    {
      DumpStops(q, polls, n);
      CompletedOutcome(q, tag, polls, n);
    }
  }

  // ---------- what the datagrams call for ----------

  /** The turn leaves nothing to do but poll again: no failure, nothing late, links only, within the byte limit. */
  predicate GoesOn(q: Inquiry, polls: seq<Poll>, k: nat)
    requires k < |polls|
  {
    && Healthy(q, polls[k])
    && AllLinks(q.rules, DumpedBy(q, polls[k]))
    && (HasDump(polls[k]) ==> DumpBytes(polls[..k + 1]) <= MAX_INVENTORY_BYTES)
  }

  /** The loop gets as far as poll `n`. */
  predicate Reaches(q: Inquiry, polls: seq<Poll>, n: nat) {
    n <= |polls| && forall k :: 0 <= k < n ==> GoesOn(q, polls, k)
  }

  /** The poll shows in time that notifications may have been lost. */
  predicate Suspicious(q: Inquiry, p: Poll) {
    && p.clock < q.deadline
    && (|| !q.listening || p.ready.None? || p.ready.value.notificationFailed
        || (!p.ready.value.dumpFailed && p.ready.value.notification && !q.keeps(p.notification)))
  }

  /** Poll `n`, which the loop gets as far as, breaks the notification stream. */
  predicate Breaks(q: Inquiry, polls: seq<Poll>, n: nat) {
    n < |polls| && Reaches(q, polls, n) && Suspicious(q, polls[n])
  }

  /** The poll delivers, in time and over sockets that work, a datagram that reports a change. */
  predicate Informs(q: Inquiry, p: Poll) {
    && p.clock < q.deadline && q.listening
    && p.ready.Some? && !p.ready.value.notificationFailed && !p.ready.value.dumpFailed && p.ready.value.notification
    && q.keeps(p.notification) && q.changes(p.notification)
  }

  /** Times of the changes reported by the first `n` polls, as far as the loop gets. */
  function ChangesRead(q: Inquiry, polls: seq<Poll>, n: nat): seq<nat>
    requires n <= |polls|
  {
    if n == 0 then []
    else
      ChangesRead(q, polls, n - 1) +
      if Reaches(q, polls, n - 1) && Informs(q, polls[n - 1]) then [polls[n - 1].eventAt] else []
  }

  /** What the adapter makes of one poll, field by field. */
  lemma PollRules(codec: Codec<Message>, listening: bool, sequence: nat, deadline: nat, p: Poll)
    ensures var q := RequestFor(codec, listening, sequence, deadline);
            && (Healthy(q, p) <==>
                  && listening && p.clock < deadline
                  && p.ready.Some? && !p.ready.value.notificationFailed && !p.ready.value.dumpFailed
                  && (p.ready.value.notification ==> KeepsContinuity(codec, p.notification))
                  && (p.ready.value.dump ==>
                        && p.dump.Some? && !p.dump.value.truncated && p.dump.value.fromKernel
                        && p.dump.value.bytes != [] && Decoded(codec, p.dump.value.bytes).Some?))
            && (Suspicious(q, p) <==>
                  && p.clock < deadline
                  && (|| !listening || p.ready.None? || p.ready.value.notificationFailed
                      || (!p.ready.value.dumpFailed && p.ready.value.notification &&
                          !KeepsContinuity(codec, p.notification))))
            && (Informs(q, p) <==>
                  && p.clock < deadline && listening
                  && p.ready.Some? && !p.ready.value.notificationFailed && !p.ready.value.dumpFailed
                  && p.ready.value.notification && ReportsChange(codec, p.notification))
            && (DumpedBy(q, p) != [] ==>
                  && p.ready.Some? && p.ready.value.dump && p.dump.Some?
                  && Decoded(codec, p.dump.value.bytes) == Some(DumpedBy(q, p)))
            && (Healthy(q, p) && p.ready.value.dump ==>
                  Decoded(codec, p.dump.value.bytes) == Some(DumpedBy(q, p)))
  {
  }

  /** The byte count and the messages of a dump grow by what each poll brings. */
  lemma AmountRules(q: Inquiry, polls: seq<Poll>, k: nat)
    requires k < |polls|
    ensures DumpBytes([]) == 0 && DumpMessages(q, []) == []
    ensures DumpMessages(q, polls[..k + 1]) == DumpMessages(q, polls[..k]) + DumpedBy(q, polls[k])
    ensures DumpBytes(polls[..k + 1]) == DumpBytes(polls[..k]) +
              if polls[k].ready.Some? && polls[k].ready.value.dump && polls[k].dump.Some?
              then |polls[k].dump.value.bytes| else 0
  {
    OneMorePoll(polls, k);
  }

  /** A dump is accepted only over polls that were all in time, answered, whole, from the kernel and decodable. */
  lemma AcceptedRules(codec: Codec<Message>, listening: bool, sequence: nat, deadline: nat, tag: nat, polls: seq<Poll>)
    returns (n: nat)
    requires Outcome(RequestFor(codec, listening, sequence, deadline), tag, polls).Completed?
    ensures n < |polls| && DumpArrives(RequestFor(codec, listening, sequence, deadline), polls, n)
    ensures DumpBytes(polls[..n + 1]) <= 16 * 1024 * 1024
    ensures forall k :: 0 <= k <= n ==>
              && listening && polls[k].clock < deadline
              && polls[k].ready.Some? && !polls[k].ready.value.notificationFailed && !polls[k].ready.value.dumpFailed
              && (polls[k].ready.value.notification ==> KeepsContinuity(codec, polls[k].notification))
              && (polls[k].ready.value.dump ==>
                    && polls[k].dump.Some? && !polls[k].dump.value.truncated && polls[k].dump.value.fromKernel
                    && polls[k].dump.value.bytes != [] && Decoded(codec, polls[k].dump.value.bytes).Some?)
  {
    AcceptedIffDump(RequestFor(codec, listening, sequence, deadline), tag, polls);
    n :| DumpArrives(RequestFor(codec, listening, sequence, deadline), polls, n);
    forall k | 0 <= k <= n ensures Healthy(RequestFor(codec, listening, sequence, deadline), polls[k]) {
    }
  }

  lemma GoingOnContinues(q: Inquiry, polls: seq<Poll>, k: nat)
    requires k < |polls|
    ensures GoesOn(q, polls, k) <==> VerdictAt(q, polls, k) == Continues
  {
    BytesOfPoll(polls, k);
    if VerdictAt(q, polls, k) == Continues {
      ContinuingTurn(q, DumpBytes(polls[..k]), polls[k]);
    }
    if GoesOn(q, polls, k) {
      LinksContinue(q, DumpBytes(polls[..k]), polls[k]);
    }
  }

  /** The loop gets exactly as far as its stop. */
  lemma ReachesStop(q: Inquiry, polls: seq<Poll>, n: nat)
    requires n <= |polls|
    ensures Reaches(q, polls, n) <==> n <= Stop(q, polls, 0)
  {
    var stop := Stop(q, polls, 0);
    forall k | 0 <= k < |polls| ensures GoesOn(q, polls, k) <==> VerdictAt(q, polls, k) == Continues {
      GoingOnContinues(q, polls, k);
    }
  }

  lemma SuspicionLoses(q: Inquiry, before: nat, p: Poll)
    ensures Suspicious(q, p) <==> VerdictOf(q, before, p) == LosesContinuity
  {
  }

  /** A loss is reported exactly when the loop meets a poll that breaks the notification stream. */
  lemma NoSilentLoss(q: Inquiry, tag: nat, polls: seq<Poll>)
    ensures Outcome(q, tag, polls).LostNotifications? <==> exists n: nat :: Breaks(q, polls, n)
  {
    var stop := Stop(q, polls, 0);
    LostAt(q, tag, polls);
    if stop < |polls| && VerdictAt(q, polls, stop) == LosesContinuity {
      BreaksAt(q, polls, stop);
    }
    if n: nat :| Breaks(q, polls, n) {
      BreaksAt(q, polls, n);
    }
  }

  lemma LostAt(q: Inquiry, tag: nat, polls: seq<Poll>)
    ensures var stop := Stop(q, polls, 0);
            Outcome(q, tag, polls).LostNotifications? <==>
              stop < |polls| && VerdictAt(q, polls, stop) == LosesContinuity
  {
  }

  lemma BreaksAt(q: Inquiry, polls: seq<Poll>, n: nat)
    requires n < |polls|
    ensures Breaks(q, polls, n) <==> n == Stop(q, polls, 0) && VerdictAt(q, polls, n) == LosesContinuity
  {
    ReachesStop(q, polls, n);
    SuspicionLoses(q, DumpBytes(polls[..n]), polls[n]);
    assert n < Stop(q, polls, 0) ==> VerdictAt(q, polls, n) == Continues;
  }

  /** A turn that gets past the read of its notification has read it whole. */
  lemma TurnReads(q: Inquiry, before: nat, p: Poll)
    ensures var verdict := VerdictOf(q, before, p);
            var reports := p.ready.Some? && p.ready.value.notification && q.changes(p.notification);
            Informs(q, p) <==>
              reports && (verdict.Continues? || verdict.FailsAfterEvent? || verdict.Completes?)
  {
  }

  lemma {:induction false} ReadIsConsumed(q: Inquiry, polls: seq<Poll>, n: nat)
    requires n <= |polls|
    ensures ChangesRead(q, polls, n) == Events(q, polls[..Min(n, Consumed(q, polls))])
  {
    if n > 0 {
      var k := n - 1;
      ReadIsConsumed(q, polls, k);
      ReachesStop(q, polls, k);
      TurnReads(q, DumpBytes(polls[..k]), polls[k]);
      OneMorePoll(polls, k);
      assert k < Stop(q, polls, 0) ==> VerdictAt(q, polls, k) == Continues;
    }
  }

  /** Whatever the result, its batch spans exactly the changes reported by the polls the loop gets as far as. */
  lemma OutcomeEvents(q: Inquiry, tag: nat, polls: seq<Poll>)
    ensures Outcome(q, tag, polls).events == Span(ChangesRead(q, polls, |polls|))
  {
    ConsumedEvents(q, tag, polls);
    ReadIsConsumed(q, polls, |polls|);
  }

  /** The result the polls call for: which kind it is, the links and the batch all follow from the datagrams. */
  ghost predicate Warranted(q: Inquiry, tag: nat, polls: seq<Poll>, r: Acquisition) {
    && (r.LostNotifications? <==> exists n: nat :: Breaks(q, polls, n))
    && (r.Completed? <==> exists n: nat :: DumpArrives(q, polls, n))
    && (forall n: nat :: DumpArrives(q, polls, n) ==>
          r.Completed? && r.tag == tag && r.links == FlatMap(LinkIn, DumpMessages(q, polls[..n + 1])))
    && r.events == Span(ChangesRead(q, polls, |polls|))
  }

  lemma OutcomeWarranted(q: Inquiry, tag: nat, polls: seq<Poll>)
    ensures Warranted(q, tag, polls, Outcome(q, tag, polls))
  {
    NoSilentLoss(q, tag, polls);
    AcceptedIffDump(q, tag, polls);
    OutcomeEvents(q, tag, polls);
  }

  // ---------- the adapter ----------

  /** A wait's poll was answered and left the notification stream intact. */
  predicate Undisturbed(codec: Codec<Message>, p: Poll) {
    && p.ready.Some? && !p.ready.value.notificationFailed
    && (p.ready.value.notification ==> KeepsContinuity(codec, p.notification))
  }

  /** A wait's poll delivers a datagram that reports a change. */
  predicate Reports(codec: Codec<Message>, p: Poll) {
    && p.ready.Some? && !p.ready.value.notificationFailed
    && p.ready.value.notification && ReportsChange(codec, p.notification)
  }

  function WaitOn(codec: Codec<Message>, listening: bool, p: Poll): (r: WaitOutcome)
    ensures r.WaitFailed? <==> listening && !Undisturbed(codec, p)
    ensures r.LinkChanged? <==> listening && Reports(codec, p)
    ensures r.LinkChanged? ==> r.at == p.eventAt
  {
    if !listening then Deadline
    else if p.ready.None? || p.ready.value.notificationFailed then WaitFailed
    else if !p.ready.value.notification then Deadline
    else if !KeepsContinuity(codec, p.notification) then WaitFailed
    else if ReportsChange(codec, p.notification) then LinkChanged(p.eventAt)
    else Deadline
  }

  /** What one more turn adds to the loop's variables. */
  lemma TurnTaken(q: Inquiry, polls: seq<Poll>, i: nat)
    requires i < |polls|
    ensures Span(Events(q, polls[..i + 1])) == Extended(q, Span(Events(q, polls[..i])), polls[i])
    ensures DumpBytes(polls[..i + 1]) == DumpBytes(polls[..i]) + DumpBytes([polls[i]])
    ensures FlatMap(LinkIn, DumpMessages(q, polls[..i + 1]))
         == FlatMap(LinkIn, DumpMessages(q, polls[..i])) + FlatMap(LinkIn, DumpedBy(q, polls[i]))
    ensures Stop(q, polls, i) == if VerdictAt(q, polls, i) == Continues then Stop(q, polls, i + 1) else i
  {
    OneMorePoll(polls, i);
    SpanExtends(q, polls, i);
    BytesOfPoll(polls, i);
    FlatMapConcat(LinkIn, DumpMessages(q, polls[..i]), DumpedBy(q, polls[i]));
  }

  /** The variables of the loop after `i` turns. */
  predicate Gathered(q: Inquiry, polls: seq<Poll>, i: nat, links: seq<ObservedLink>, total: nat, events: EventBatch)
    requires i <= |polls|
  {
    && events == Span(Events(q, polls[..i]))
    && total == DumpBytes(polls[..i])
    && links == FlatMap(LinkIn, DumpMessages(q, polls[..i]))
  }

  /** What the loop returns on a verdict that ends it. */
  function Ended(verdict: Verdict, tag: nat, links: seq<ObservedLink>, events: EventBatch): Acquisition {
    match verdict
    case Completes => Completed(tag, links, events)
    case LosesContinuity => LostNotifications(events)
    case _ => Ordinary(events)
  }

  /** The sequence number of the next request: u32 addition that skips zero. */
  function Successor(sequence: nat): (next: nat)
    ensures 1 <= next < SEQUENCES
    ensures sequence < SEQUENCES ==> next != sequence
  {
    if (sequence + 1) % SEQUENCES == 0 then 1 else (sequence + 1) % SEQUENCES
  }

  /** The request of an inventory that gets as far as sending one. */
  function RequestAfter(codec: Codec<Message>, listening: bool, sequence: nat, started: nat): Inquiry {
    RequestFor(codec, listening, Successor(sequence), started + INVENTORY_TIMEOUT)
  }

  /** The result of an inventory: the dump socket opens or not, the request is sent or not, and then the polls. */
  function InventoryOn(codec: Codec<Message>, listening: bool, sequence: nat, tag: nat, opens: bool, sends: bool,
                       started: nat, polls: seq<Poll>): Acquisition
  {
    if opens && sends then Outcome(RequestAfter(codec, listening, sequence, started), tag, polls)
    else Ordinary(EventBatch(None, None))
  }

  class NetlinkSource {
    const codec: Codec<Message>
    /** Whether a notification socket is held. */
    var notification: bool
    var sequence: nat

    constructor (codec: Codec<Message>)
      ensures this.codec == codec && !notification && sequence == 0
    {
      this.codec := codec;
      notification, sequence := false, 0;
    }

    /** next_sequence: never zero, never the previous one. */
    method NextSequence() returns (next: nat)
      requires sequence < SEQUENCES
      modifies `sequence
      ensures next == sequence == Successor(old(sequence))
      ensures 1 <= next < SEQUENCES && next != old(sequence)
      ensures next == if old(sequence) + 1 < 0x1_0000_0000 then old(sequence) + 1 else 1
    {
      sequence := (sequence + 1) % SEQUENCES;
      if sequence == 0 {
        sequence := 1;
      }
      return sequence;
    }

    method Subscribe(opens: bool) returns (ok: bool)
      modifies `notification
      ensures ok <==> opens
      ensures notification <==> opens || old(notification)
    {
      if !opens {
        return false;
      }
      notification := true;
      return true;
    }

    /** inventory. */
    method Inventory(tag: nat, opens: bool, sends: bool, started: nat, polls: seq<Poll>) returns (r: Acquisition)
      requires sequence < SEQUENCES
      modifies `notification, `sequence
      ensures sequence == if opens then Successor(old(sequence)) else old(sequence)
      ensures r == InventoryOn(codec, old(notification), old(sequence), tag, opens, sends, started, polls)
      ensures if opens && sends
              then Warranted(RequestAfter(codec, old(notification), old(sequence), started), tag, polls, r)
              else r == Ordinary(EventBatch(None, None))
      ensures notification <==> old(notification) && !r.LostNotifications?
    {
      if !opens {
        return Ordinary(EventBatch(None, None));
      }
      var expected := NextSequence();
      if !sends {
        return Ordinary(EventBatch(None, None));
      }
      OutcomeWarranted(RequestFor(codec, notification, expected, started + INVENTORY_TIMEOUT), tag, polls);
      r := GatherDump(tag, expected, started + INVENTORY_TIMEOUT, polls);
    }

    /** The polling loop of inventory. */
    method GatherDump(tag: nat, expected: nat, deadline: nat, polls: seq<Poll>) returns (r: Acquisition)
      modifies `notification
      ensures r == Outcome(RequestFor(codec, old(notification), expected, deadline), tag, polls)
      ensures notification <==> old(notification) && !r.LostNotifications?
    {
      var events := EventBatch(None, None);
      ghost var q := RequestFor(codec, notification, expected, deadline);
      var links: seq<ObservedLink> := [];
      var total := 0;
      for i := 0 to |polls|
        invariant Stop(q, polls, 0) == Stop(q, polls, i)
        invariant Gathered(q, polls, i, links, total, events)
        invariant notification == q.listening
      {
        var verdict;
        verdict, links, total, events := TakeTurn(tag, expected, deadline, polls, i, links, total, events, q);
        if !verdict.Continues? {
          return Ended(verdict, tag, links, events);
        }
      }
      assert polls[..|polls|] == polls;
      return Ordinary(events);
    }

    /** One turn of the loop, with what the first `i` turns gathered. */
    method TakeTurn(tag: nat, expected: nat, deadline: nat, polls: seq<Poll>, i: nat, links: seq<ObservedLink>,
                    total: nat, events: EventBatch, ghost q: Inquiry)
      returns (verdict: Verdict, links': seq<ObservedLink>, total': nat, events': EventBatch)
      requires i < |polls| && q == RequestFor(codec, notification, expected, deadline)
      requires Gathered(q, polls, i, links, total, events)
      modifies `notification
      ensures notification <==> old(notification) && !verdict.LosesContinuity?
      ensures verdict.Continues? ==>
                Gathered(q, polls, i + 1, links', total', events') && Stop(q, polls, i) == Stop(q, polls, i + 1)
      ensures !verdict.Continues? ==>
                EndedAt(q, tag, polls, i) == Ended(verdict, tag, links', events') && Stop(q, polls, i) == i
    {
      TurnTaken(q, polls, i);
      verdict, links', total', events' := PollOnce(expected, deadline, polls[i], links, total, events, q);
    }

    /** The body of the polling loop of inventory. */
    method PollOnce(expected: nat, deadline: nat, poll: Poll, links: seq<ObservedLink>, total: nat, events: EventBatch,
                    ghost q: Inquiry)
      returns (verdict: Verdict, links': seq<ObservedLink>, total': nat, events': EventBatch)
      requires q == RequestFor(codec, notification, expected, deadline)
      modifies `notification
      ensures verdict == VerdictOf(q, total, poll)
      ensures notification <==> old(notification) && !verdict.LosesContinuity?
      ensures events' == if verdict.TimesOut? || verdict.LosesContinuity? || verdict.FailsBeforeEvent? then events
                         else Extended(q, events, poll)
      ensures verdict.Continues? || verdict.Completes? ==>
                links' == links + FlatMap(LinkIn, DumpedBy(q, poll)) && total' == total + DumpBytes([poll])
    {
      links', total', events' := links, total, events;
      assert [poll][..0] == [];
      if poll.clock >= deadline {
        return TimesOut, links', total', events';
      }
      if !notification {
        return LosesContinuity, links', total', events';
      }
      if poll.ready.None? {
        notification := false;
        return LosesContinuity, links', total', events';
      }
      var ready := poll.ready.value;
      if ready.notificationFailed {
        notification := false;
        return LosesContinuity, links', total', events';
      }
      if ready.dumpFailed {
        return FailsBeforeEvent, links', total', events';
      }
      if ready.notification {
        var at := ReceiveNotification(codec, poll.notification, poll.eventAt);
        if at.Err? {
          notification := false;
          return LosesContinuity, links', total', events';
        }
        if at.value.Some? {
          events' := EventBatch(if events.first.Some? then events.first else at.value, at.value);
        }
      }
      if !ready.dump {
        return Continues, links', total', events';
      }
      if poll.dump.None? {
        return FailsAfterEvent, links', total', events';
      }
      var datagram := poll.dump.value;
      if datagram.truncated {
        return FailsAfterEvent, links', total', events';
      }
      if !datagram.fromKernel || datagram.bytes == [] {
        return FailsAfterEvent, links', total', events';
      }
      total' := total + |datagram.bytes|;
      if total' > MAX_INVENTORY_BYTES {
        return FailsAfterEvent, links', total', events';
      }
      var done;
      done, links' := ConsumeDump(codec, datagram.bytes, expected, links);
      if done.Err? {
        return FailsAfterEvent, links', total', events';
      }
      return if done.value then Completes else Continues, links', total', events';
    }

    method Wait(p: Poll) returns (r: WaitOutcome)
      modifies `notification
      ensures r == WaitOn(codec, old(notification), p)
      ensures r.WaitFailed? <==> old(notification) && !Undisturbed(codec, p)
      ensures r.LinkChanged? <==> old(notification) && Reports(codec, p)
      ensures r.WaitFailed? <==>
                old(notification) &&
                (p.ready.None? || p.ready.value.notificationFailed ||
                 (p.ready.value.notification && !KeepsContinuity(codec, p.notification)))
      ensures r.LinkChanged? <==>
                old(notification) && p.ready.Some? && !p.ready.value.notificationFailed && p.ready.value.notification &&
                ReportsChange(codec, p.notification)
      ensures r.LinkChanged? ==> r.at == p.eventAt
      ensures notification <==> old(notification) && !r.WaitFailed?
    {
      if !notification {
        return Deadline;
      }
      if p.ready.None? {
        notification := false;
        return WaitFailed;
      }
      var ready := p.ready.value;
      if ready.notificationFailed {
        notification := false;
        return WaitFailed;
      }
      if !ready.notification {
        return Deadline;
      }
      var at := ReceiveNotification(codec, p.notification, p.eventAt);
      if at.Err? {
        notification := false;
        return WaitFailed;
      }
      return if at.value.Some? then LinkChanged(at.value.value) else Deadline;
    }
  }
}
