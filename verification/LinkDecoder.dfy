/** src/netlink.rs: decode_link turns the attributes of one RTM_NEWLINK into an observed link. */
module LinkDecoder {
  import opened Links
  import opened Sequences
  import opened Wrappers

  datatype InfoKind =
    | BondInfo | BridgeInfo | VlanInfo | MacVlanInfo | IpVlanInfo | MacVtapInfo | VxlanInfo | VethInfo | OtherKind

  datatype VxlanAttribute = Underlay(index: nat) | OtherVxlan

  datatype InfoData = VxlanData(attributes: seq<VxlanAttribute>) | OtherData

  datatype LinkInfo = Kind(kind: InfoKind) | Data(data: InfoData) | OtherInfo

  datatype LinkAttribute =
    | IfName(name: string)
    | Controller(index: nat)
    | Link(index: nat)
    | LinkNetNsId(id: int)
    | LinkInfos(infos: seq<LinkInfo>)
    | OtherAttribute

  datatype LinkMessage = LinkMessage(index: nat, attributes: seq<LinkAttribute>)

  datatype LinkError = InvalidLink

  // ---------- what the attributes say, in order of appearance ----------

  function NamesIn(a: LinkAttribute): seq<string> { if a.IfName? then [a.name] else [] }
  function ControllersIn(a: LinkAttribute): seq<nat> { if a.Controller? then [a.index] else [] }
  function LowersIn(a: LinkAttribute): seq<nat> { if a.Link? then [a.index] else [] }
  function NetNsIdsIn(a: LinkAttribute): seq<int> { if a.LinkNetNsId? then [a.id] else [] }
  function InfosIn(a: LinkAttribute): seq<LinkInfo> { if a.LinkInfos? then a.infos else [] }
  function KindsIn(i: LinkInfo): seq<InfoKind> { if i.Kind? then [i.kind] else [] }
  function DatasIn(i: LinkInfo): seq<InfoData> { if i.Data? then [i.data] else [] }
  function UnderlaysIn(v: VxlanAttribute): seq<nat> { if v.Underlay? then [v.index] else [] }

  /** Everything said about each field. */
  datatype Claims = Claims(
    names: seq<string>,
    controllers: seq<nat>,
    lowers: seq<nat>,
    netNsIds: seq<int>,
    kinds: seq<InfoKind>,
    datas: seq<InfoData>)
  {
    /** No field is said twice. */
    predicate Unambiguous() {
      |names| <= 1 && |controllers| <= 1 && |lowers| <= 1 && |netNsIds| <= 1 && |kinds| <= 1 && |datas| <= 1
    }

    function Plus(more: Claims): Claims {
      Claims(names + more.names, controllers + more.controllers, lowers + more.lowers, netNsIds + more.netNsIds,
             kinds + more.kinds, datas + more.datas)
    }
  }

  const NOTHING: Claims := Claims([], [], [], [], [], [])

  function ClaimsOf(attributes: seq<LinkAttribute>): Claims {
    var infos := FlatMap(InfosIn, attributes);
    Claims(FlatMap(NamesIn, attributes), FlatMap(ControllersIn, attributes), FlatMap(LowersIn, attributes),
           FlatMap(NetNsIdsIn, attributes), FlatMap(KindsIn, infos), FlatMap(DatasIn, infos))
  }

  function Only<T>(s: seq<T>): Option<T> {
    if |s| == 1 then Some(s[0]) else None
  }

  /** The VXLAN underlays named by the link data, if it is VXLAN data. */
  function UnderlaysOf(data: Option<InfoData>): seq<nat> {
    if data.Some? && data.value.VxlanData? then FlatMap(UnderlaysIn, data.value.attributes) else []
  }

  function KindOf(kind: Option<InfoKind>): LinkKind {
    match kind
    case Some(BondInfo) => Bond
    case Some(BridgeInfo) => Bridge
    case Some(VlanInfo) => Vlan
    case Some(MacVlanInfo) => MacVlan
    case Some(IpVlanInfo) => IpVlan
    case Some(MacVtapInfo) => MacVtap
    case Some(VxlanInfo) => Vxlan
    case Some(VethInfo) => Veth
    case _ => Other
  }

  /** A link decodes when nothing is said twice and its name is said: to what is said. */
  function LinkOf(message: LinkMessage): Option<ObservedLink> {
    var claims := ClaimsOf(message.attributes);
    var underlays := UnderlaysOf(Only(claims.datas));
    if claims.Unambiguous() && |claims.names| == 1 && |underlays| <= 1 then
      Some(ObservedLink(message.index, claims.names[0], KindOf(Only(claims.kinds)), Only(claims.controllers),
                        Only(claims.lowers), Only(claims.netNsIds), Only(underlays)))
    else None
  }

  // ---------- decode_link ----------

  /** The local variables of decode_link. */
  datatype Slots = Slots(
    name: Option<string>,
    controller: Option<nat>,
    lower: Option<nat>,
    netNsId: Option<int>,
    kind: Option<InfoKind>,
    data: Option<InfoData>)

  ghost predicate Holds(slots: Slots, claims: Claims) {
    && claims.Unambiguous()
    && slots == Slots(Only(claims.names), Only(claims.controllers), Only(claims.lowers), Only(claims.netNsIds),
                      Only(claims.kinds), Only(claims.datas))
  }

  /** set_once: the slot takes the value; a slot that already had one is an error. */
  function SetOnce<T>(slot: Option<T>, value: T): Result<Option<T>, LinkError> {
    if slot.Some? then Err(InvalidLink) else Ok(Some(value))
  }

  function ClaimsIn(a: LinkAttribute): Claims {
    Claims(NamesIn(a), ControllersIn(a), LowersIn(a), NetNsIdsIn(a),
           FlatMap(KindsIn, InfosIn(a)), FlatMap(DatasIn, InfosIn(a)))
  }

  function InfoClaims(infos: seq<LinkInfo>): Claims {
    NOTHING.(kinds := FlatMap(KindsIn, infos), datas := FlatMap(DatasIn, infos))
  }

  lemma ClaimsConcat(a: seq<LinkAttribute>, b: seq<LinkAttribute>)
    ensures ClaimsOf(a + b) == ClaimsOf(a).Plus(ClaimsOf(b))
  {
    FlatMapConcat(NamesIn, a, b);
    FlatMapConcat(ControllersIn, a, b);
    FlatMapConcat(LowersIn, a, b);
    FlatMapConcat(NetNsIdsIn, a, b);
    FlatMapConcat(InfosIn, a, b);
    FlatMapConcat(KindsIn, FlatMap(InfosIn, a), FlatMap(InfosIn, b));
    FlatMapConcat(DatasIn, FlatMap(InfosIn, a), FlatMap(InfosIn, b));
  }

  lemma ClaimsOne(a: LinkAttribute)
    ensures ClaimsOf([a]) == ClaimsIn(a)
  {
    FlatMapOne(NamesIn, a);
    FlatMapOne(ControllersIn, a);
    FlatMapOne(LowersIn, a);
    FlatMapOne(NetNsIdsIn, a);
    FlatMapOne(InfosIn, a);
  }

  lemma PlusNothing(c: Claims)
    ensures c.Plus(NOTHING) == c
  {
  }

  lemma PlusAssociative(a: Claims, b: Claims, c: Claims)
    ensures a.Plus(b).Plus(c) == a.Plus(b.Plus(c))
  {
  }

  lemma InfoClaimsConcat(a: seq<LinkInfo>, b: seq<LinkInfo>)
    ensures InfoClaims(a + b) == InfoClaims(a).Plus(InfoClaims(b))
  {
    FlatMapConcat(KindsIn, a, b);
    FlatMapConcat(DatasIn, a, b);
  }

  lemma AmbiguityStays(c: Claims, more: Claims)
    ensures c.Plus(more).Unambiguous() ==> c.Unambiguous()
  {
  }

  method TakeInfo(slots: Slots, info: LinkInfo, ghost claims: Claims) returns (r: Result<Slots, LinkError>)
    requires Holds(slots, claims)
    ensures var more := claims.Plus(InfoClaims([info]));
            if more.Unambiguous() then r.Ok? && Holds(r.value, more) else r.Err?
  {
    FlatMapOne(KindsIn, info);
    FlatMapOne(DatasIn, info);
    match info {
      case Kind(value) =>
        var kind := SetOnce(slots.kind, value);
        if kind.Err? {
          return Err(kind.error);
        }
        return Ok(slots.(kind := kind.value));
      case Data(value) =>
        var data := SetOnce(slots.data, value);
        if data.Err? {
          return Err(data.error);
        }
        return Ok(slots.(data := data.value));
      case OtherInfo =>
        PlusNothing(claims);
        return Ok(slots);
    }
  }

  method TakeInfos(slots: Slots, infos: seq<LinkInfo>, ghost claims: Claims) returns (r: Result<Slots, LinkError>)
    requires Holds(slots, claims)
    ensures var more := claims.Plus(InfoClaims(infos));
            if more.Unambiguous() then r.Ok? && Holds(r.value, more) else r.Err?
  {
    var filled := slots;
    PlusNothing(claims);
    for i := 0 to |infos|
      invariant Holds(filled, claims.Plus(InfoClaims(infos[..i])))
    {
      assert infos[..i + 1] == infos[..i] + [infos[i]];
      InfoClaimsConcat(infos[..i], [infos[i]]);
      PlusAssociative(claims, InfoClaims(infos[..i]), InfoClaims([infos[i]]));
      var next := TakeInfo(filled, infos[i], claims.Plus(InfoClaims(infos[..i])));
      if next.Err? {
        InfosAmbiguous(claims, infos, i + 1);
        return Err(next.error);
      }
      filled := next.value;
    }
    assert infos[..|infos|] == infos;
    return Ok(filled);
  }

  lemma InfosAmbiguous(c: Claims, infos: seq<LinkInfo>, i: nat)
    requires i <= |infos| && !c.Plus(InfoClaims(infos[..i])).Unambiguous()
    ensures !c.Plus(InfoClaims(infos)).Unambiguous()
  {
    assert infos == infos[..i] + infos[i..];
    InfoClaimsConcat(infos[..i], infos[i..]);
    PlusAssociative(c, InfoClaims(infos[..i]), InfoClaims(infos[i..]));
    AmbiguityStays(c.Plus(InfoClaims(infos[..i])), InfoClaims(infos[i..]));
  }

  method TakeAttribute(slots: Slots, a: LinkAttribute, ghost claims: Claims) returns (r: Result<Slots, LinkError>)
    requires Holds(slots, claims)
    ensures var more := claims.Plus(ClaimsIn(a));
            if more.Unambiguous() then r.Ok? && Holds(r.value, more) else r.Err?
  {
    match a {
      case IfName(value) =>
        var name := SetOnce(slots.name, value);
        if name.Err? {
          return Err(name.error);
        }
        return Ok(slots.(name := name.value));
      case Controller(value) =>
        var controller := SetOnce(slots.controller, value);
        if controller.Err? {
          return Err(controller.error);
        }
        return Ok(slots.(controller := controller.value));
      case Link(value) =>
        var lower := SetOnce(slots.lower, value);
        if lower.Err? {
          return Err(lower.error);
        }
        return Ok(slots.(lower := lower.value));
      case LinkNetNsId(value) =>
        var netNsId := SetOnce(slots.netNsId, value);
        if netNsId.Err? {
          return Err(netNsId.error);
        }
        return Ok(slots.(netNsId := netNsId.value));
      case LinkInfos(infos) =>
        r := TakeInfos(slots, infos, claims);
      case OtherAttribute =>
        PlusNothing(claims);
        return Ok(slots);
    }
  }

  method TakeUnderlays(data: Option<InfoData>) returns (r: Result<Option<nat>, LinkError>)
    ensures var underlays := UnderlaysOf(data);
            if |underlays| <= 1 then r == Ok(Only(underlays)) else r.Err?
  {
    if data.None? || !data.value.VxlanData? {
      return Ok(None);
    }
    var attributes := data.value.attributes;
    var slot: Option<nat> := None;
    for i := 0 to |attributes|
      invariant |FlatMap(UnderlaysIn, attributes[..i])| <= 1
      invariant slot == Only(FlatMap(UnderlaysIn, attributes[..i]))
    {
      assert attributes[..i + 1] == attributes[..i] + [attributes[i]];
      FlatMapAppend(UnderlaysIn, attributes[..i], attributes[i]);
      if attributes[i].Underlay? {
        var next := SetOnce(slot, attributes[i].index);
        if next.Err? {
          assert attributes == attributes[..i + 1] + attributes[i + 1..];
          FlatMapConcat(UnderlaysIn, attributes[..i + 1], attributes[i + 1..]);
          return Err(next.error);
        }
        slot := next.value;
      }
    }
    assert attributes[..|attributes|] == attributes;
    return Ok(slot);
  }

  /** One more attribute adds what it says, and an ambiguity stays to the end. */
  lemma ClaimsGrow(attributes: seq<LinkAttribute>, i: nat)
    requires i < |attributes|
    ensures ClaimsOf(attributes[..i + 1]) == ClaimsOf(attributes[..i]).Plus(ClaimsIn(attributes[i]))
    ensures ClaimsOf(attributes).Unambiguous() ==> ClaimsOf(attributes[..i + 1]).Unambiguous()
  {
    assert attributes[..i + 1] == attributes[..i] + [attributes[i]];
    ClaimsConcat(attributes[..i], [attributes[i]]);
    ClaimsOne(attributes[i]);
    assert attributes == attributes[..i + 1] + attributes[i + 1..];
    ClaimsConcat(attributes[..i + 1], attributes[i + 1..]);
    AmbiguityStays(ClaimsOf(attributes[..i + 1]), ClaimsOf(attributes[i + 1..]));
  }

  /** decode_link. */
  method DecodeLink(message: LinkMessage) returns (r: Result<ObservedLink, LinkError>)
    ensures r.Ok? <==> LinkOf(message).Some?
    ensures r.Ok? ==> LinkOf(message) == Some(r.value)
  {
    var attributes := message.attributes;
    var slots := Slots(None, None, None, None, None, None);
    for i := 0 to |attributes|
      invariant Holds(slots, ClaimsOf(attributes[..i]))
    {
      ClaimsGrow(attributes, i);
      var next := TakeAttribute(slots, attributes[i], ClaimsOf(attributes[..i]));
      if next.Err? {
        return Err(next.error);
      }
      slots := next.value;
    }
    assert attributes[..|attributes|] == attributes;
    var kind := KindOf(slots.kind);
    var vxlanLower := TakeUnderlays(slots.data);
    if vxlanLower.Err? {
      return Err(vxlanLower.error);
    }
    if slots.name.None? {
      return Err(InvalidLink);
    }
    return Ok(ObservedLink(message.index, slots.name.value, kind, slots.controller, slots.lower, slots.netNsId,
                           vxlanLower.value));
  }

  // ---------- decode_link, field by field ----------

  /** All link infos, in order. */
  function InfosOf(message: LinkMessage): seq<LinkInfo> {
    FlatMap(InfosIn, message.attributes)
  }

  lemma InfosAre(message: LinkMessage, info: LinkInfo)
    ensures info in InfosOf(message) <==>
            exists a :: a in message.attributes && a.LinkInfos? && info in a.infos
  {
    FlatMapMembers(InfosIn, message.attributes, info);
    if a :| a in message.attributes && info in InfosIn(a) {
      assert a.LinkInfos? && info in a.infos;
    }
    if a :| a in message.attributes && a.LinkInfos? && info in a.infos {
      assert info in InfosIn(a);
    }
  }

  /** What is said once is the thing that some element, and only one element could, say. */
  lemma OnlySays<A, B>(f: A -> seq<B>, s: seq<A>, x: A, y: B)
    requires |FlatMap(f, s)| <= 1 && y in f(x) && forall a :: y in f(a) ==> a == x
    ensures Only(FlatMap(f, s)) == Some(y) <==> x in s
  {
    FlatMapMembers(f, s, y);
    assert Only(FlatMap(f, s)) == Some(y) <==> y in FlatMap(f, s);
  }

  /** Where a decoded link's fields come from. */
  lemma Decodes(message: LinkMessage, link: ObservedLink)
    requires LinkOf(message) == Some(link)
    ensures var claims := ClaimsOf(message.attributes);
            && claims.Unambiguous() && link.index == message.index && claims.names == [link.name]
            && link.controller == Only(claims.controllers) && link.lower == Only(claims.lowers)
            && link.lowerNetnsid == Only(claims.netNsIds) && link.kind == KindOf(Only(claims.kinds))
            && |UnderlaysOf(Only(claims.datas))| <= 1 && link.vxlanLower == Only(UnderlaysOf(Only(claims.datas)))
  {
  }

  /** A decoded link says what its attributes say, and nothing else. */
  lemma AttributeRules(message: LinkMessage, link: ObservedLink)
    requires LinkOf(message) == Some(link)
    ensures link.index == message.index && IfName(link.name) in message.attributes
    ensures forall c: nat :: link.controller == Some(c) <==> Controller(c) in message.attributes
    ensures forall l: nat :: link.lower == Some(l) <==> Link(l) in message.attributes
    ensures forall n :: link.lowerNetnsid == Some(n) <==> LinkNetNsId(n) in message.attributes
  {
    Decodes(message, link);
    NameRule(message.attributes, link.name);
    ReferenceRules(message.attributes);
  }

  lemma NameRule(attributes: seq<LinkAttribute>, name: string)
    requires FlatMap(NamesIn, attributes) == [name]
    ensures IfName(name) in attributes
  {
    OnlySays(NamesIn, attributes, IfName(name), name);
  }

  lemma ReferenceRules(attributes: seq<LinkAttribute>)
    ensures |FlatMap(ControllersIn, attributes)| <= 1 ==>
              forall c: nat :: Only(FlatMap(ControllersIn, attributes)) == Some(c) <==> Controller(c) in attributes
    ensures |FlatMap(LowersIn, attributes)| <= 1 ==>
              forall l: nat :: Only(FlatMap(LowersIn, attributes)) == Some(l) <==> Link(l) in attributes
    ensures |FlatMap(NetNsIdsIn, attributes)| <= 1 ==>
              forall n :: Only(FlatMap(NetNsIdsIn, attributes)) == Some(n) <==> LinkNetNsId(n) in attributes
  {
    forall c: nat | |FlatMap(ControllersIn, attributes)| <= 1
      ensures Only(FlatMap(ControllersIn, attributes)) == Some(c) <==> Controller(c) in attributes
    {
      OnlySays(ControllersIn, attributes, Controller(c), c);
    }
    forall l: nat | |FlatMap(LowersIn, attributes)| <= 1
      ensures Only(FlatMap(LowersIn, attributes)) == Some(l) <==> Link(l) in attributes
    {
      OnlySays(LowersIn, attributes, Link(l), l);
    }
    forall n | |FlatMap(NetNsIdsIn, attributes)| <= 1
      ensures Only(FlatMap(NetNsIdsIn, attributes)) == Some(n) <==> LinkNetNsId(n) in attributes
    {
      OnlySays(NetNsIdsIn, attributes, LinkNetNsId(n), n);
    }
  }

  /** The kind is the one the link infos say, and any other kind or none is Other. */
  lemma KindRules(message: LinkMessage, link: ObservedLink)
    requires LinkOf(message) == Some(link)
    ensures link.kind == Bond <==> Kind(BondInfo) in InfosOf(message)
    ensures link.kind == Bridge <==> Kind(BridgeInfo) in InfosOf(message)
    ensures link.kind == Vlan <==> Kind(VlanInfo) in InfosOf(message)
    ensures link.kind == MacVlan <==> Kind(MacVlanInfo) in InfosOf(message)
    ensures link.kind == IpVlan <==> Kind(IpVlanInfo) in InfosOf(message)
    ensures link.kind == MacVtap <==> Kind(MacVtapInfo) in InfosOf(message)
    ensures link.kind == Vxlan <==> Kind(VxlanInfo) in InfosOf(message)
    ensures link.kind == Veth <==> Kind(VethInfo) in InfosOf(message)
  {
    Decodes(message, link);
    var kind := Only(ClaimsOf(message.attributes).kinds);
    forall k: InfoKind ensures kind == Some(k) <==> Kind(k) in InfosOf(message) {
      KindSaid(message, k);
    }
    KindOfMeans(kind);
  }

  lemma KindSaid(message: LinkMessage, k: InfoKind)
    requires |ClaimsOf(message.attributes).kinds| <= 1
    ensures Only(ClaimsOf(message.attributes).kinds) == Some(k) <==> Kind(k) in InfosOf(message)
  {
    OnlySays(KindsIn, InfosOf(message), Kind(k), k);
  }

  lemma KindOfMeans(kind: Option<InfoKind>)
    ensures KindOf(kind) == Bond <==> kind == Some(BondInfo)
    ensures KindOf(kind) == Bridge <==> kind == Some(BridgeInfo)
    ensures KindOf(kind) == Vlan <==> kind == Some(VlanInfo)
    ensures KindOf(kind) == MacVlan <==> kind == Some(MacVlanInfo)
    ensures KindOf(kind) == IpVlan <==> kind == Some(IpVlanInfo)
    ensures KindOf(kind) == MacVtap <==> kind == Some(MacVtapInfo)
    ensures KindOf(kind) == Vxlan <==> kind == Some(VxlanInfo)
    ensures KindOf(kind) == Veth <==> kind == Some(VethInfo)
  {
  }

  lemma DataSaid(message: LinkMessage, d: InfoData)
    requires |ClaimsOf(message.attributes).datas| <= 1
    ensures Only(ClaimsOf(message.attributes).datas) == Some(d) <==> Data(d) in InfosOf(message)
  {
    OnlySays(DatasIn, InfosOf(message), Data(d), d);
  }

  /** The VXLAN underlay is the one named in VXLAN data. */
  lemma UnderlayRules(message: LinkMessage, link: ObservedLink, u: nat)
    requires LinkOf(message) == Some(link)
    ensures link.vxlanLower == Some(u) <==>
            exists vs :: Data(VxlanData(vs)) in InfosOf(message) && Underlay(u) in vs
  {
    Decodes(message, link);
    var data := Only(ClaimsOf(message.attributes).datas);
    if data.Some? {
      DataSaid(message, data.value);
    }
    if data.Some? && data.value.VxlanData? {
      OnlySays(UnderlaysIn, data.value.attributes, Underlay(u), u);
    }
    if vs :| Data(VxlanData(vs)) in InfosOf(message) && Underlay(u) in vs {
      DataSaid(message, VxlanData(vs));
    }
  }

  lemma NamesTwice(attributes: seq<LinkAttribute>)
    ensures |FlatMap(NamesIn, attributes)| >= 2 <==>
            exists i, j :: 0 <= i < j < |attributes| && attributes[i].IfName? && attributes[j].IfName?
  {
    FlatMapTwice(NamesIn, attributes);
  }

  lemma ControllersTwice(attributes: seq<LinkAttribute>)
    ensures |FlatMap(ControllersIn, attributes)| >= 2 <==>
            exists i, j :: 0 <= i < j < |attributes| && attributes[i].Controller? && attributes[j].Controller?
  {
    FlatMapTwice(ControllersIn, attributes);
  }

  lemma LowersTwice(attributes: seq<LinkAttribute>)
    ensures |FlatMap(LowersIn, attributes)| >= 2 <==>
            exists i, j :: 0 <= i < j < |attributes| && attributes[i].Link? && attributes[j].Link?
  {
    FlatMapTwice(LowersIn, attributes);
  }

  lemma NetNsIdsTwice(attributes: seq<LinkAttribute>)
    ensures |FlatMap(NetNsIdsIn, attributes)| >= 2 <==>
            exists i, j :: 0 <= i < j < |attributes| && attributes[i].LinkNetNsId? && attributes[j].LinkNetNsId?
  {
    FlatMapTwice(NetNsIdsIn, attributes);
  }

  lemma KindsTwice(infos: seq<LinkInfo>)
    ensures |FlatMap(KindsIn, infos)| >= 2 <==>
            exists i, j :: 0 <= i < j < |infos| && infos[i].Kind? && infos[j].Kind?
  {
    FlatMapTwice(KindsIn, infos);
  }

  lemma DatasTwice(infos: seq<LinkInfo>)
    ensures |FlatMap(DatasIn, infos)| >= 2 <==>
            exists i, j :: 0 <= i < j < |infos| && infos[i].Data? && infos[j].Data?
  {
    FlatMapTwice(DatasIn, infos);
  }

  lemma UnderlaysTwice(vs: seq<VxlanAttribute>)
    ensures |FlatMap(UnderlaysIn, vs)| >= 2 <==>
            exists i, j :: 0 <= i < j < |vs| && vs[i].Underlay? && vs[j].Underlay?
  {
    FlatMapTwice(UnderlaysIn, vs);
  }

  /** The same attribute is there twice. */
  predicate SaidTwice(attributes: seq<LinkAttribute>) {
    || (exists i, j :: 0 <= i < j < |attributes| && attributes[i].IfName? && attributes[j].IfName?)
    || (exists i, j :: 0 <= i < j < |attributes| && attributes[i].Controller? && attributes[j].Controller?)
    || (exists i, j :: 0 <= i < j < |attributes| && attributes[i].Link? && attributes[j].Link?)
    || (exists i, j :: 0 <= i < j < |attributes| && attributes[i].LinkNetNsId? && attributes[j].LinkNetNsId?)
  }

  predicate InfoTwice(infos: seq<LinkInfo>) {
    || (exists i, j :: 0 <= i < j < |infos| && infos[i].Kind? && infos[j].Kind?)
    || (exists i, j :: 0 <= i < j < |infos| && infos[i].Data? && infos[j].Data?)
  }

  predicate UnderlayTwice(vs: seq<VxlanAttribute>) {
    exists i, j :: 0 <= i < j < |vs| && vs[i].Underlay? && vs[j].Underlay?
  }

  lemma AttributesUnambiguous(message: LinkMessage)
    ensures ClaimsOf(message.attributes).Unambiguous() <==>
            !SaidTwice(message.attributes) && !InfoTwice(InfosOf(message))
  {
    NamesTwice(message.attributes);
    ControllersTwice(message.attributes);
    LowersTwice(message.attributes);
    NetNsIdsTwice(message.attributes);
    KindsTwice(InfosOf(message));
    DatasTwice(InfosOf(message));
  }

  lemma NameSaid(attributes: seq<LinkAttribute>)
    ensures FlatMap(NamesIn, attributes) != [] <==> exists a :: a in attributes && a.IfName?
  {
    FlatMapSome(NamesIn, attributes);
    if a :| a in attributes && a.IfName? {
      var i :| 0 <= i < |attributes| && attributes[i] == a;
      assert NamesIn(attributes[i]) != [];
    }
    if i :| 0 <= i < |attributes| && NamesIn(attributes[i]) != [] {
      assert attributes[i] in attributes && attributes[i].IfName?;
    }
  }

  /** A link is refused exactly when it has no name, says something twice, or names two underlays. */
  lemma RefusalRules(message: LinkMessage)
    ensures LinkOf(message).None? <==>
            || (forall a :: a in message.attributes ==> !a.IfName?)
            || SaidTwice(message.attributes)
            || InfoTwice(InfosOf(message))
            || exists vs :: Data(VxlanData(vs)) in InfosOf(message) && UnderlayTwice(vs)
  {
    AttributesUnambiguous(message);
    NameSaid(message.attributes);
    if ClaimsOf(message.attributes).Unambiguous() {
      OverloadedData(message);
    }
  }

  lemma OverloadedData(message: LinkMessage)
    requires |ClaimsOf(message.attributes).datas| <= 1
    ensures |UnderlaysOf(Only(ClaimsOf(message.attributes).datas))| >= 2 <==>
            exists vs :: Data(VxlanData(vs)) in InfosOf(message) && UnderlayTwice(vs)
  {
    var data := Only(ClaimsOf(message.attributes).datas);
    forall d ensures data == Some(d) <==> Data(d) in InfosOf(message) {
      DataSaid(message, d);
    }
    if data.Some? && data.value.VxlanData? {
      UnderlaysTwice(data.value.attributes);
      assert Data(VxlanData(data.value.attributes)) in InfosOf(message);
    }
  }

  // ---------- order of attributes ----------

  lemma OnlyPermuted<T>(a: seq<T>, b: seq<T>)
    requires Permuted(a, b)
    ensures |a| == |b|
    ensures |a| <= 1 ==> a == b
  {
    assert |a| == |multiset(a)| == |multiset(b)| == |b|;
    if |a| == 1 {
      assert a[0] in multiset(b);
    }
  }

  /** The order the kernel lists attributes in does not matter. */
  lemma AttributeOrderFree(index: nat, a: seq<LinkAttribute>, b: seq<LinkAttribute>)
    requires Permuted(a, b)
    ensures LinkOf(LinkMessage(index, a)) == LinkOf(LinkMessage(index, b))
  {
    FlatMapPermuted(NamesIn, a, b);
    FlatMapPermuted(ControllersIn, a, b);
    FlatMapPermuted(LowersIn, a, b);
    FlatMapPermuted(NetNsIdsIn, a, b);
    FlatMapPermuted(InfosIn, a, b);
    FlatMapPermuted(KindsIn, FlatMap(InfosIn, a), FlatMap(InfosIn, b));
    FlatMapPermuted(DatasIn, FlatMap(InfosIn, a), FlatMap(InfosIn, b));
    var x, y := ClaimsOf(a), ClaimsOf(b);
    OnlyPermuted(x.names, y.names);
    OnlyPermuted(x.controllers, y.controllers);
    OnlyPermuted(x.lowers, y.lowers);
    OnlyPermuted(x.netNsIds, y.netNsIds);
    OnlyPermuted(x.kinds, y.kinds);
    OnlyPermuted(x.datas, y.datas);
  }
}
