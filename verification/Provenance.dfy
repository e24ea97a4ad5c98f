/** From the kernel's datagrams to the published table, over whole runs of the monitor on the production adapter. */
module Provenance {
  import opened Adapter
  import opened Framing
  import opened Guarantees
  import opened History
  import opened Links
  import opened Mib
  import opened Monitor
  import opened Netlink
  import opened Sequences
  import opened System
  import opened Wrappers

  // ---------- what each iteration does to the publication ----------

  datatype Effect = Brings(links: seq<ObservedLink>) | Loses | Leaves

  function EffectOf(codec: Codec<Message>, w: Joint, io: Io): Effect {
    var t := Heard(codec, w, io);
    if Publishes(w.schedule, t) then Brings(t.acquisition.links)
    else if Withdraws(w.schedule, t) then Loses
    else Leaves
  }

  lemma EffectHappens(codec: Codec<Message>, w: Joint, io: Io)
    ensures Available(Stepped(codec, w, io).schedule.log) == match EffectOf(codec, w, io)
                                                             case Brings(links) => Some(links)
                                                             case Loses => None
                                                             case Leaves => Available(w.schedule.log)
  {
    TakeAvailability(w.schedule, Heard(codec, w, io));
  }

  function EffectsOf(codec: Codec<Message>, ios: seq<Io>, trace: seq<Joint>): (effects: seq<Effect>)
    requires |trace| == |ios| + 1
    ensures |effects| == |ios|
  {
    seq(|ios|, (k: nat) requires k < |ios| => EffectOf(codec, trace[k], ios[k]))
  }

  /** What stands after some effects. */
  function Standing(effects: seq<Effect>): Option<seq<ObservedLink>> {
    if effects == [] then None
    else
      match effects[|effects| - 1]
      case Brings(links) => Some(links)
      case Loses => None
      case Leaves => Standing(effects[..|effects| - 1])
  }

  /** The links that stand are the latest brought, unless something was lost since. */
  lemma {:induction false} StandingIs(effects: seq<Effect>, links: seq<ObservedLink>)
    ensures Standing(effects) == Some(links) <==>
            exists i :: BroughtLast(effects, i, links)
  {
    if effects != [] {
      var last := |effects| - 1;
      StandingIs(effects[..last], links);
      if effects[last].Leaves? {
        forall i ensures BroughtLast(effects, i, links) <==> BroughtLast(effects[..last], i, links) {
          assert BroughtLast(effects, i, links) ==> i != last;
        }
      } else {
        assert effects[last] == Brings(links) ==> BroughtLast(effects, last, links);
        assert forall i :: BroughtLast(effects, i, links) ==> i == last;
      }
    }
  }

  /** Effect `i` brought the links and nothing has happened since. */
  ghost predicate BroughtLast(effects: seq<Effect>, i: int, links: seq<ObservedLink>) {
    0 <= i < |effects| && effects[i] == Brings(links) && forall j :: i < j < |effects| ==> effects[j].Leaves?
  }

  /** What is available at a loop head is what stands after the effects of the iterations before. */
  lemma {:induction false} AvailableStands(codec: Codec<Message>, reconcile: nat, ios: seq<Io>, trace: seq<Joint>,
                                           k: nat)
    requires Trace(codec, reconcile, ios, trace) && k <= |ios|
    ensures Available(trace[k].schedule.log) == Standing(EffectsOf(codec, ios, trace)[..k])
  {
    if k > 0 {
      AvailableStands(codec, reconcile, ios, trace, k - 1);
      assert Follows(codec, ios, trace, k - 1);
      EffectHappens(codec, trace[k - 1], ios[k - 1]);
      assert EffectsOf(codec, ios, trace)[..k][..k - 1] == EffectsOf(codec, ios, trace)[..k - 1];
    }
  }

  // ---------- a published table is a dump the kernel sent ----------

  function RequestIn(codec: Codec<Message>, w: Joint, io: Io): Inquiry {
    RequestAfter(codec, true, w.sequence, io.startedAt)
  }

  /** The links of a dump that ends with poll `n`, in the order the kernel sent them. */
  function LinksIn(codec: Codec<Message>, w: Joint, io: Io, n: nat): seq<ObservedLink>
    requires n < |io.polls|
  {
    FlatMap(LinkIn, DumpMessages(RequestIn(codec, w, io), io.polls[..n + 1]))
  }

  /** The iteration makes an attempt, and a whole dump of a well-formed inventory answers it by poll `n`. */
  ghost predicate Supplies(codec: Codec<Message>, w: Joint, io: Io, n: nat) {
    && Acquires(w, io) && io.dumpOpens && io.sends
    && DumpArrives(RequestIn(codec, w, io), io.polls, n)
    && WellFormed(LinksIn(codec, w, io, n))
  }

  ghost predicate Supplied(codec: Codec<Message>, w: Joint, io: Io) {
    exists n :: Supplies(codec, w, io, n)
  }

  /** Only a whole dump of a well-formed inventory publishes. */
  lemma PublishingIsSupplied(codec: Codec<Message>, w: Joint, io: Io) returns (n: nat)
    requires Publishes(w.schedule, Heard(codec, w, io))
    ensures Supplies(codec, w, io, n)
    ensures Heard(codec, w, io).acquisition.links == LinksIn(codec, w, io, n)
  {
    var q := RequestIn(codec, w, io);
    AcceptedIffDump(q, w.schedule.continuity, io.polls);
    n :| DumpArrives(q, io.polls, n);
  }

  /** With ordered clocks every such dump publishes. */
  lemma SuppliedPublishes(codec: Codec<Message>, w: Joint, io: Io, n: nat)
    requires Supplies(codec, w, io, n) && IoOrdered(io)
    ensures Publishes(w.schedule, Heard(codec, w, io))
    ensures Heard(codec, w, io).acquisition.links == LinksIn(codec, w, io, n)
  {
    AcceptedIffDump(RequestIn(codec, w, io), w.schedule.continuity, io.polls);
    HeardDependable(codec, w, io);
  }

  /** Iteration `j` publishes. */
  predicate PublishesAt(codec: Codec<Message>, ios: seq<Io>, trace: seq<Joint>, j: nat)
    requires j < |ios| && |trace| == |ios| + 1
  {
    Publishes(trace[j].schedule, Heard(codec, trace[j], ios[j]))
  }

  /** The iteration reads something that breaks the notification stream, or fails to read it. */
  ghost predicate Broken(codec: Codec<Message>, w: Joint, io: Io) {
    if Acquires(w, io) then io.dumpOpens && io.sends && exists n: nat :: Breaks(RequestIn(codec, w, io), io.polls, n)
    else w.schedule.TrySubscribe(Asked(io)).subscribed && !Undisturbed(codec, io.idle)
  }

  /** The monitor loses continuity exactly when the stream was broken. */
  lemma LossIsBreak(codec: Codec<Message>, w: Joint, io: Io)
    ensures Withdraws(w.schedule, Heard(codec, w, io)) <==> Broken(codec, w, io)
  {
    if Acquires(w, io) && io.dumpOpens && io.sends {
      NoSilentLoss(RequestIn(codec, w, io), w.schedule.continuity, io.polls);
    }
  }

  /**
   * Iteration `i` was supplied by poll `n`; no iteration from then until loop head `k` broke the notification
   * stream or was supplied.
   */
  ghost predicate Current(codec: Codec<Message>, ios: seq<Io>, trace: seq<Joint>, k: nat, i: nat, n: nat)
    requires k <= |ios| && |trace| == |ios| + 1
  {
    && i < k && Supplies(codec, trace[i], ios[i], n)
    && (forall j :: i < j < k ==> !Disturbs(codec, trace[j], ios[j]))
  }

  ghost predicate Disturbs(codec: Codec<Message>, w: Joint, io: Io) {
    Broken(codec, w, io) || Supplied(codec, w, io)
  }

  /** With a forward clock, an iteration brings links exactly when it is supplied with them. */
  lemma EffectMeans(codec: Codec<Message>, w: Joint, io: Io)
    requires IoOrdered(io)
    ensures forall n :: Supplies(codec, w, io, n) ==> EffectOf(codec, w, io) == Brings(LinksIn(codec, w, io, n))
    ensures EffectOf(codec, w, io).Brings? ==> Supplied(codec, w, io)
    ensures EffectOf(codec, w, io).Leaves? <==> !Disturbs(codec, w, io)
  {
    forall n | Supplies(codec, w, io, n) ensures EffectOf(codec, w, io) == Brings(LinksIn(codec, w, io, n)) {
      SuppliedPublishes(codec, w, io, n);
    }
    LossIsBreak(codec, w, io);
    if Publishes(w.schedule, Heard(codec, w, io)) {
      var n := PublishingIsSupplied(codec, w, io);
    }
  }

  ghost function TableFrom(links: seq<ObservedLink>): Option<Table> {
    Some(TableOf(TopologyOf(links)))
  }

  /**
   * Whatever the environment does, a published table is the table of a whole dump that some iteration received,
   * decoded in the kernel's order and well-formed. The monitor has been subscribed ever since, nothing read since
   * broke the notification stream, and no other dump has been published.
   */
  lemma PublishedIsDump(codec: Codec<Message>, reconcile: nat, ios: seq<Io>, trace: seq<Joint>, k: nat)
    returns (i: nat, n: nat)
    requires Trace(codec, reconcile, ios, trace) && k <= |ios| && Published(trace[k].schedule.log).Some?
    ensures i < k && Supplies(codec, trace[i], ios[i], n)
    ensures Published(trace[k].schedule.log) == TableFrom(LinksIn(codec, trace[i], ios[i], n))
    ensures forall j :: i < j <= k ==> trace[j].schedule.subscribed
    ensures forall j :: i < j < k ==>
              !Broken(codec, trace[j], ios[j]) && !PublishesAt(codec, ios, trace, j)
  {
    var links := Available(trace[k].schedule.log).value;
    AvailableStands(codec, reconcile, ios, trace, k);
    i := Bringing(codec, ios, trace, k, links);
    n := PublishingIsSupplied(codec, trace[i], ios[i]);
    forall j | i < j < k
      ensures !Broken(codec, trace[j], ios[j]) && !PublishesAt(codec, ios, trace, j)
    {
      LossIsBreak(codec, trace[j], ios[j]);
    }
    forall j | i < j <= k ensures trace[j].schedule.subscribed {
      StoodBefore(codec, ios, trace, k, i, links, j);
      StandingSubscribed(codec, reconcile, ios, trace, j);
    }
  }

  lemma StoodBefore(codec: Codec<Message>, ios: seq<Io>, trace: seq<Joint>, k: nat, i: nat, links: seq<ObservedLink>,
                    j: nat)
    requires |trace| == |ios| + 1 && i < j <= k <= |ios| && EffectOf(codec, trace[i], ios[i]) == Brings(links)
    requires forall m :: i < m < k ==> EffectOf(codec, trace[m], ios[m]).Leaves?
    ensures Standing(EffectsOf(codec, ios, trace)[..j]) == Some(links)
  {
    StandingIs(EffectsOf(codec, ios, trace)[..j], links);
    assert BroughtLast(EffectsOf(codec, ios, trace)[..j], i, links);
  }

  /** A table is available only while the monitor is subscribed. */
  lemma StandingSubscribed(codec: Codec<Message>, reconcile: nat, ios: seq<Io>, trace: seq<Joint>, k: nat)
    requires Trace(codec, reconcile, ios, trace) && k <= |ios| && Standing(EffectsOf(codec, ios, trace)[..k]).Some?
    ensures trace[k].schedule.subscribed
  {
    AvailableStands(codec, reconcile, ios, trace, k);
    TraceIsRun(codec, reconcile, ios, trace, k);
    RunsAreLegal(reconcile, TurnsOf(codec, ios, trace)[..k]);
    AvailableWhileListening(reconcile, trace[k].schedule.log);
  }

  /** The iteration that brought what stands. */
  lemma Bringing(codec: Codec<Message>, ios: seq<Io>, trace: seq<Joint>, k: nat, links: seq<ObservedLink>)
    returns (i: nat)
    requires |trace| == |ios| + 1 && k <= |ios| && Standing(EffectsOf(codec, ios, trace)[..k]) == Some(links)
    ensures i < k && EffectOf(codec, trace[i], ios[i]) == Brings(links)
    ensures forall j :: i < j < k ==> EffectOf(codec, trace[j], ios[j]).Leaves?
  {
    var effects := EffectsOf(codec, ios, trace)[..k];
    StandingIs(effects, links);
    i :| BroughtLast(effects, i, links);
    forall j | i < j < k ensures EffectOf(codec, trace[j], ios[j]).Leaves? {
      assert effects[j].Leaves?;
    }
  }

  /** What a current dump brought stands. */
  lemma CurrentStands(codec: Codec<Message>, ios: seq<Io>, trace: seq<Joint>, k: nat, i: nat, n: nat)
    requires |trace| == |ios| + 1 && k <= |ios| && Current(codec, ios, trace, k, i, n)
    requires forall j :: 0 <= j < |ios| ==> IoOrdered(ios[j])
    ensures Standing(EffectsOf(codec, ios, trace)[..k]) == Some(LinksIn(codec, trace[i], ios[i], n))
  {
    var effects := EffectsOf(codec, ios, trace)[..k];
    EffectMeans(codec, trace[i], ios[i]);
    forall j | i < j < k ensures effects[j].Leaves? {
      assert !Disturbs(codec, trace[j], ios[j]);
      EffectMeans(codec, trace[j], ios[j]);
    }
    assert BroughtLast(effects, i, LinksIn(codec, trace[i], ios[i], n));
    StandingIs(effects, LinksIn(codec, trace[i], ios[i], n));
  }

  /** Something stands only because of a current dump. */
  lemma StandingIsCurrent(codec: Codec<Message>, ios: seq<Io>, trace: seq<Joint>, k: nat) returns (i: nat, n: nat)
    requires |trace| == |ios| + 1 && k <= |ios| && Standing(EffectsOf(codec, ios, trace)[..k]).Some?
    requires forall j :: 0 <= j < |ios| ==> IoOrdered(ios[j])
    ensures Current(codec, ios, trace, k, i, n)
  {
    i := Bringing(codec, ios, trace, k, Standing(EffectsOf(codec, ios, trace)[..k]).value);
    EffectMeans(codec, trace[i], ios[i]);
    n :| Supplies(codec, trace[i], ios[i], n);
    forall j | i < j < k ensures !Disturbs(codec, trace[j], ios[j]) {
      EffectMeans(codec, trace[j], ios[j]);
    }
  }

  /**
   * With ordered clocks a table is published at a loop head exactly when some iteration was supplied with a whole
   * dump of a well-formed inventory, and since then neither was continuity lost nor another such dump received;
   * the table is the one of that dump.
   */
  lemma PublishedIffDump(codec: Codec<Message>, reconcile: nat, ios: seq<Io>, trace: seq<Joint>, k: nat)
    requires Trace(codec, reconcile, ios, trace) && k <= |ios|
    requires forall j :: 0 <= j < |ios| ==> IoOrdered(ios[j])
    ensures Published(trace[k].schedule.log).Some? <==> exists i, n :: Current(codec, ios, trace, k, i, n)
    ensures forall i: nat, n: nat :: Current(codec, ios, trace, k, i, n) ==>
              Published(trace[k].schedule.log) == TableFrom(LinksIn(codec, trace[i], ios[i], n))
  {
    AvailableStands(codec, reconcile, ios, trace, k);
    if Published(trace[k].schedule.log).Some? {
      var i, n := StandingIsCurrent(codec, ios, trace, k);
    }
    forall i: nat, n: nat | Current(codec, ios, trace, k, i, n)
      ensures Published(trace[k].schedule.log) == TableFrom(LinksIn(codec, trace[i], ios[i], n))
    {
      CurrentStands(codec, ios, trace, k, i, n);
    }
  }

  /** A monitor that can subscribe makes its first attempt at once. */
  lemma FirstAttempt(reconcile: nat, io: Io)
    requires io.opens
    ensures Acquires(Joint(Initial(reconcile), 0), io)
  {
  }

  /** A monitor whose first request is answered by a whole dump of a well-formed inventory publishes it at once. */
  lemma StartupPublishes(codec: Codec<Message>, reconcile: nat, io: Io, n: nat)
    requires IoOrdered(io) && io.opens && io.dumpOpens && io.sends
    requires DumpArrives(RequestIn(codec, Joint(Initial(reconcile), 0), io), io.polls, n)
    requires WellFormed(LinksIn(codec, Joint(Initial(reconcile), 0), io, n))
    ensures Published(Stepped(codec, Joint(Initial(reconcile), 0), io).schedule.log)
         == TableFrom(LinksIn(codec, Joint(Initial(reconcile), 0), io, n))
  {
    var w := Joint(Initial(reconcile), 0);
    FirstAttempt(reconcile, io);
    assert Supplies(codec, w, io, n);
    EffectMeans(codec, w, io);
    EffectHappens(codec, w, io);
  }

  /** Startup at time zero: everything opens at once and the kernel's first datagram is `bytes`. */
  function PromptStart(bytes: seq<Byte>): Io {
    var poll := Poll(0, Some(Ready(false, true, false, false)), None, 0, Some(Datagram(bytes, true, false)));
    Io(0, true, 0, 0, true, true, 0, [poll], 0, 0, poll, 0)
  }

  /** The start answers the first request, whose number is one, with the messages of the datagram. */
  lemma PromptDump(codec: Codec<Message>, reconcile: nat, bytes: seq<Byte>, messages: seq<Message>)
    requires bytes != [] && |bytes| <= MAX_INVENTORY_BYTES && Decoded(codec, bytes) == Some(messages)
    requires IsDump(DumpRules(1), messages)
    ensures var io := PromptStart(bytes);
            var q := RequestIn(codec, Joint(Initial(reconcile), 0), io);
            DumpArrives(q, io.polls, 0) && DumpMessages(q, io.polls[..1]) == messages
  {
    var p := PromptStart(bytes).polls[0];
    var q := RequestIn(codec, Joint(Initial(reconcile), 0), PromptStart(bytes));
    assert Successor(0) == 1;
    PromptPoll(codec, bytes, messages, q, p);
    DumpInOne(q, p);
  }

  lemma PromptPoll(codec: Codec<Message>, bytes: seq<Byte>, messages: seq<Message>, q: Inquiry, p: Poll)
    requires bytes != [] && |bytes| <= MAX_INVENTORY_BYTES && Decoded(codec, bytes) == Some(messages)
    requires q == RequestFor(codec, true, 1, INVENTORY_TIMEOUT) && p == PromptStart(bytes).polls[0]
    ensures Healthy(q, p) && DumpedBy(q, p) == messages && DumpBytes([p]) <= MAX_INVENTORY_BYTES
    ensures q.rules == DumpRules(1)
  {
    assert [p][..0] == [];
  }

  /** Such starts exist, whatever the inventory: every dump that fits into a datagram has one. */
  lemma PromptPublishes(codec: Codec<Message>, reconcile: nat, bytes: seq<Byte>, messages: seq<Message>)
    requires bytes != [] && |bytes| <= MAX_INVENTORY_BYTES && Decoded(codec, bytes) == Some(messages)
    requires IsDump(DumpRules(1), messages) && WellFormed(FlatMap(LinkIn, messages))
    ensures IosOrdered([PromptStart(bytes)])
    ensures Published(Stepped(codec, Joint(Initial(reconcile), 0), PromptStart(bytes)).schedule.log)
         == TableFrom(FlatMap(LinkIn, messages))
  {
    PromptDump(codec, reconcile, bytes, messages);
    StartupPublishes(codec, reconcile, PromptStart(bytes), 0);
  }
}
