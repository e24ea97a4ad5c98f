/** src/netlink.rs: the production acquisition adapter over raw datagrams. */
module Netlink {
  import opened Durations
  import opened Framing
  import opened LinkDecoder
  import opened Links
  import opened Sequences
  import opened Wrappers

  const INVENTORY_TIMEOUT: nat := 3 * SECOND
  const MAX_INVENTORY_BYTES: nat := 16 * 1024 * 1024
  const NLM_F_DUMP_INTR: bv16 := 0x10

  datatype Payload =
    | NewLink(link: LinkMessage)
    | DelLink(link: LinkMessage)
    | Done(code: int)
    | Error(code: int)
    | Overrun
    | Noop
    | OtherMessage

  datatype Message = Message(sequence: nat, flags: bv16, payload: Payload)

  datatype Datagram = Datagram(bytes: seq<Byte>, fromKernel: bool, truncated: bool)

  datatype Ready = Ready(notification: bool, dump: bool, notificationFailed: bool, dumpFailed: bool)

  /** What the sockets and clocks answer during one turn of a polling loop; None is a failed system call. */
  datatype Poll = Poll(
    clock: nat,
    ready: Option<Ready>,
    notification: Option<Datagram>,
    eventAt: nat,
    dump: Option<Datagram>)

  datatype NetlinkError = NetlinkError

  // ---------- dump messages ----------

  predicate Interrupted(m: Message) {
    m.flags & NLM_F_DUMP_INTR != 0
  }

  predicate Answers(sequence: nat, m: Message) {
    m.sequence == sequence && !Interrupted(m)
  }

  /** One link of the dump. */
  predicate IsLink(sequence: nat, m: Message) {
    Answers(sequence, m) && m.payload.NewLink? && LinkOf(m.payload.link).Some?
  }

  /** The completion of the dump. */
  predicate IsDone(sequence: nat, m: Message) {
    Answers(sequence, m) && m.payload == Done(0)
  }

  /** The part a message plays in a dump. */
  datatype Role = CarriesLink | ClosesDump | Foreign

  type Rules = Message -> Role

  /** The roles of messages in the answer to one request. */
  function DumpRules(sequence: nat): Rules {
    (m: Message) => if IsLink(sequence, m) then CarriesLink else if IsDone(sequence, m) then ClosesDump else Foreign
  }

  /** NewLink*. */
  predicate AllLinks(rules: Rules, messages: seq<Message>) {
    messages == [] || (AllLinks(rules, messages[..|messages| - 1]) && rules(messages[|messages| - 1]).CarriesLink?)
  }

  /** NewLink* Done(0). */
  predicate IsDump(rules: Rules, messages: seq<Message>) {
    && messages != []
    && rules(messages[|messages| - 1]).ClosesDump?
    && AllLinks(rules, messages[..|messages| - 1])
  }

  lemma {:induction false} AllLinksMeans(rules: Rules, messages: seq<Message>, i: nat)
    requires i < |messages| && AllLinks(rules, messages)
    ensures rules(messages[i]).CarriesLink?
  {
    if i < |messages| - 1 {
      AllLinksMeans(rules, messages[..|messages| - 1], i);
    }
  }

  lemma {:induction false} AllLinksConcat(rules: Rules, a: seq<Message>, b: seq<Message>)
    ensures AllLinks(rules, a + b) <==> AllLinks(rules, a) && AllLinks(rules, b)
  {
    if b == [] {
      assert a + b == a;
    } else {
      assert (a + b)[..|a + b| - 1] == a + b[..|b| - 1];
      AllLinksConcat(rules, a, b[..|b| - 1]);
    }
  }

  /** The link a message carries. */
  function LinkIn(m: Message): seq<ObservedLink> {
    if m.payload.NewLink? && LinkOf(m.payload.link).Some? then [LinkOf(m.payload.link).value] else []
  }

  /** The messages of a datagram that decodes. */
  function Messages(codec: Codec<Message>, bytes: seq<Byte>): seq<Message> {
    match Decoded(codec, bytes)
    case None => []
    case Some(messages) => messages
  }

  /** consume_dump; the vector it pushes into is passed in and handed back. */
  method ConsumeDump(codec: Codec<Message>, bytes: seq<Byte>, sequence: nat, links: seq<ObservedLink>)
    returns (r: Result<bool, NetlinkError>, pushed: seq<ObservedLink>)
    ensures r == Ok(true) <==> Decoded(codec, bytes).Some? && IsDump(DumpRules(sequence), Messages(codec, bytes))
    ensures r == Ok(false) <==> Decoded(codec, bytes).Some? && AllLinks(DumpRules(sequence), Messages(codec, bytes))
    ensures r.Ok? ==> pushed == links + FlatMap(LinkIn, Messages(codec, bytes))
  {
    var decoded := DecodeDatagram(codec, bytes);
    if decoded.Err? {
      return Err(NetlinkError), links;
    }
    r, pushed := ConsumeMessages(decoded.value, sequence, links, DumpRules(sequence));
  }

  /** The loop of consume_dump. */
  method ConsumeMessages(messages: seq<Message>, sequence: nat, links: seq<ObservedLink>, ghost rules: Rules)
    returns (r: Result<bool, NetlinkError>, pushed: seq<ObservedLink>)
    requires rules == DumpRules(sequence)
    ensures r == Ok(true) <==> IsDump(rules, messages)
    ensures r == Ok(false) <==> AllLinks(rules, messages)
    ensures r.Ok? ==> pushed == links + FlatMap(LinkIn, messages)
  {
    pushed := links;
    for position := 0 to |messages|
      invariant AllLinks(rules, messages[..position])
      invariant pushed == links + FlatMap(LinkIn, messages[..position])
    {
      MessageConsumed(rules, messages, position);
      var step := ConsumeMessage(messages[position], sequence, rules);
      if step.Carries? {
        pushed := pushed + [step.link];
      } else {
        DumpEnds(rules, messages, position);
        if step.Closing? && position + 1 == |messages| {
          return Ok(true), pushed;
        }
        return Err(NetlinkError), pushed;
      }
    }
    assert messages[..|messages|] == messages;
    NotBoth(rules, messages);
    return Ok(false), pushed;
  }

  lemma MessageConsumed(rules: Rules, messages: seq<Message>, position: nat)
    requires position < |messages|
    ensures AllLinks(rules, messages[..position + 1]) <==>
            AllLinks(rules, messages[..position]) && rules(messages[position]).CarriesLink?
    ensures FlatMap(LinkIn, messages[..position + 1])
         == FlatMap(LinkIn, messages[..position]) + LinkIn(messages[position])
  {
    assert messages[..position + 1][..position] == messages[..position];
  }

  /** What one message is to a dump. */
  datatype DumpStep = Carries(link: ObservedLink) | Closing | Spoiling

  /** The checks consume_dump makes of one message. */
  method ConsumeMessage(message: Message, sequence: nat, ghost rules: Rules) returns (step: DumpStep)
    requires rules == DumpRules(sequence)
    ensures step.Carries? <==> rules(message).CarriesLink?
    ensures step.Closing? <==> rules(message).ClosesDump?
    ensures step.Carries? ==> LinkIn(message) == [step.link]
    ensures step.Closing? ==> LinkIn(message) == []
  {
    if message.sequence != sequence {
      return Spoiling;
    }
    if Interrupted(message) {
      return Spoiling;
    }
    match message.payload {
      case NewLink(link) =>
        var observed := DecodeLink(link);
        return if observed.Ok? then Carries(observed.value) else Spoiling;
      case Done(code) =>
        return if code == 0 then Closing else Spoiling;
      case _ =>
        return Spoiling;
    }
  }

  /** The role of a message, field by field; a dump flagged as interrupted is never usable. */
  lemma RoleRules(sequence: nat, m: Message)
    ensures var usable := m.sequence == sequence && m.flags & 0x10 == 0;
            && (DumpRules(sequence)(m).CarriesLink? <==>
                  usable && m.payload.NewLink? && LinkOf(m.payload.link).Some?)
            && (DumpRules(sequence)(m).ClosesDump? <==> usable && m.payload.Done? && m.payload.code == 0)
    ensures DumpRules(sequence)(m).CarriesLink? ==> LinkIn(m) == [LinkOf(m.payload.link).value]
    ensures !m.payload.NewLink? ==> LinkIn(m) == []
  {
  }

  lemma {:induction false} LinksRules(rules: Rules, messages: seq<Message>)
    ensures AllLinks(rules, messages) <==> forall i :: 0 <= i < |messages| ==> rules(messages[i]).CarriesLink?
  {
    if messages != [] {
      LinksRules(rules, messages[..|messages| - 1]);
    }
  }

  /** What NewLink* is, message by message: each answers the request, is not interrupted, and carries its own link. */
  lemma LinksShape(sequence: nat, messages: seq<Message>)
    ensures AllLinks(DumpRules(sequence), messages) <==>
            forall i :: 0 <= i < |messages| ==> LinkMessageOk(sequence, messages[i])
    ensures AllLinks(DumpRules(sequence), messages) ==>
              && |FlatMap(LinkIn, messages)| == |messages|
              && forall i :: 0 <= i < |messages| ==>
                   messages[i].payload.NewLink? &&
                   LinkOf(messages[i].payload.link) == Some(FlatMap(LinkIn, messages)[i])
  {
    LinksRules(DumpRules(sequence), messages);
    forall i | 0 <= i < |messages|
      ensures DumpRules(sequence)(messages[i]).CarriesLink? <==> LinkMessageOk(sequence, messages[i])
      ensures LinkMessageOk(sequence, messages[i]) ==> LinkIn(messages[i]) == [LinkOf(messages[i].payload.link).value]
    {
      RoleRules(sequence, messages[i]);
    }
    if AllLinks(DumpRules(sequence), messages) {
      FlatMapSingles(LinkIn, messages);
    }
  }

  /** The message answers the request, is not interrupted, and carries a link that decodes. */
  predicate LinkMessageOk(sequence: nat, m: Message) {
    && m.sequence == sequence && m.flags & 0x10 == 0
    && m.payload.NewLink? && LinkOf(m.payload.link).Some?
  }

  /** What NewLink* Done(0) is, message by message. */
  lemma DumpShape(sequence: nat, messages: seq<Message>)
    ensures IsDump(DumpRules(sequence), messages) <==>
            && messages != []
            && (forall i :: 0 <= i < |messages| - 1 ==> LinkMessageOk(sequence, messages[i]))
            && var last := messages[|messages| - 1];
               last.sequence == sequence && last.flags & 0x10 == 0 && last.payload.Done? && last.payload.code == 0
    ensures IsDump(DumpRules(sequence), messages) ==>
              && |FlatMap(LinkIn, messages)| == |messages| - 1
              && forall i :: 0 <= i < |messages| - 1 ==>
                   messages[i].payload.NewLink? &&
                   LinkOf(messages[i].payload.link) == Some(FlatMap(LinkIn, messages)[i])
  {
    if messages != [] {
      var front, last := messages[..|messages| - 1], messages[|messages| - 1];
      assert forall i :: 0 <= i < |front| ==> front[i] == messages[i];
      LinksShape(sequence, front);
      RoleRules(sequence, last);
      if IsDump(DumpRules(sequence), messages) {
        assert FlatMap(LinkIn, messages) == FlatMap(LinkIn, front) + LinkIn(last) == FlatMap(LinkIn, front);
      }
    }
  }

  lemma NotBoth(rules: Rules, messages: seq<Message>)
    ensures !(AllLinks(rules, messages) && IsDump(rules, messages))
  {
  }

  /** At the first message that is not a link the datagram is a dump, if that message closes it, or nothing. */
  lemma DumpEnds(rules: Rules, messages: seq<Message>, position: nat)
    requires position < |messages| && AllLinks(rules, messages[..position]) && !rules(messages[position]).CarriesLink?
    ensures !AllLinks(rules, messages)
    ensures IsDump(rules, messages) <==> rules(messages[position]).ClosesDump? && position + 1 == |messages|
    ensures position + 1 == |messages| ==>
              FlatMap(LinkIn, messages) == FlatMap(LinkIn, messages[..position]) + LinkIn(messages[position])
  {
    if AllLinks(rules, messages) {
      AllLinksMeans(rules, messages, position);
    }
    if position + 1 < |messages| && AllLinks(rules, messages[..|messages| - 1]) {
      AllLinksMeans(rules, messages[..|messages| - 1], position);
    }
  }

  // ---------- notifications ----------

  predicate IsChange(m: Message) {
    m.payload.NewLink? || m.payload.DelLink?
  }

  predicate IsNotification(m: Message) {
    m.sequence == 0 && (IsChange(m) || m.payload.Noop?)
  }

  predicate OnlyNotifications(messages: seq<Message>) {
    forall m :: m in messages ==> IsNotification(m)
  }

  predicate AnyChange(messages: seq<Message>) {
    exists m :: m in messages && IsChange(m)
  }

  /** The notification stream is intact after this datagram. */
  predicate KeepsContinuity(codec: Codec<Message>, received: Option<Datagram>) {
    && received.Some?
    && !received.value.truncated && received.value.fromKernel && received.value.bytes != []
    && Decoded(codec, received.value.bytes).Some?
    && OnlyNotifications(Decoded(codec, received.value.bytes).value)
  }

  predicate ReportsChange(codec: Codec<Message>, received: Option<Datagram>) {
    KeepsContinuity(codec, received) && AnyChange(Decoded(codec, received.value.bytes).value)
  }

  /** Which datagrams keep continuity and which report a change, message by message. */
  lemma ContinuityRules(codec: Codec<Message>, received: Option<Datagram>)
    ensures KeepsContinuity(codec, received) <==>
            && received.Some? && !received.value.truncated && received.value.fromKernel && received.value.bytes != []
            && Decoded(codec, received.value.bytes).Some?
            && forall m :: m in Decoded(codec, received.value.bytes).value ==>
                 m.sequence == 0 && (m.payload.NewLink? || m.payload.DelLink? || m.payload.Noop?)
    ensures ReportsChange(codec, received) <==>
            && KeepsContinuity(codec, received)
            && exists m :: m in Decoded(codec, received.value.bytes).value && (m.payload.NewLink? || m.payload.DelLink?)
  {
  }

  /** receive_notification on a subscribed socket. */
  method ReceiveNotification(codec: Codec<Message>, received: Option<Datagram>, now: nat)
    returns (r: Result<Option<nat>, NetlinkError>)
    ensures r.Ok? <==> KeepsContinuity(codec, received)
    ensures r.Ok? ==> r.value == if ReportsChange(codec, received) then Some(now) else None
    ensures r.Ok? <==>
            && received.Some? && !received.value.truncated && received.value.fromKernel && received.value.bytes != []
            && Decoded(codec, received.value.bytes).Some?
            && forall m :: m in Decoded(codec, received.value.bytes).value ==>
                 m.sequence == 0 && (m.payload.NewLink? || m.payload.DelLink? || m.payload.Noop?)
    ensures r.Ok? && r.value.Some? <==>
            r.Ok? && exists m :: m in Decoded(codec, received.value.bytes).value &&
                                 (m.payload.NewLink? || m.payload.DelLink?)
  {
    ContinuityRules(codec, received);
    if received.None? {
      return Err(NetlinkError);
    }
    var datagram := received.value;
    if datagram.truncated {
      return Err(NetlinkError);
    }
    if !datagram.fromKernel {
      return Err(NetlinkError);
    }
    if datagram.bytes == [] {
      return Err(NetlinkError);
    }
    var decoded := DecodeDatagram(codec, datagram.bytes);
    if decoded.Err? {
      return Err(NetlinkError);
    }
    var changed := ScanNotification(decoded.value);
    if changed.Err? {
      return Err(changed.error);
    }
    return Ok(if changed.value then Some(now) else None);
  }

  lemma OneMoreMessage(messages: seq<Message>, i: nat)
    requires i < |messages|
    ensures OnlyNotifications(messages[..i + 1]) <==> OnlyNotifications(messages[..i]) && IsNotification(messages[i])
    ensures AnyChange(messages[..i + 1]) <==> AnyChange(messages[..i]) || IsChange(messages[i])
    ensures OnlyNotifications(messages) ==> IsNotification(messages[i])
  {
    assert forall m :: m in messages[..i + 1] <==> m in messages[..i] || m == messages[i];
    assert messages[i] in messages;
  }

  /** The loop of receive_notification. */
  method ScanNotification(messages: seq<Message>) returns (r: Result<bool, NetlinkError>)
    ensures r.Ok? <==> OnlyNotifications(messages)
    ensures r.Ok? ==> (r.value <==> AnyChange(messages))
  {
    var changed := false;
    for i := 0 to |messages|
      invariant OnlyNotifications(messages[..i])
      invariant changed <==> AnyChange(messages[..i])
    {
      OneMoreMessage(messages, i);
      var message := messages[i];
      if message.sequence != 0 {
        return Err(NetlinkError);
      }
      match message.payload {
        case NewLink(_) => changed := true;
        case DelLink(_) => changed := true;
        case Noop =>
        case _ => return Err(NetlinkError);
      }
    }
    assert messages[..|messages|] == messages;
    return Ok(changed);
  }
}
