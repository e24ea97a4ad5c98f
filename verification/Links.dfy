/** src/link.rs: a complete inventory of observed links becomes a validated topology. */
module Links {
  import opened Sequences
  import opened Wrappers

  // i32::MAX: ifIndex is an InterfaceIndex, 1..2147483647.
  const MAX_INDEX: nat := 0x7FFF_FFFF

  datatype LinkKind = Bond | Bridge | Vlan | MacVlan | IpVlan | MacVtap | Vxlan | Veth | Other

  datatype ObservedLink = ObservedLink(
    index: nat,
    name: string,
    kind: LinkKind,
    controller: Option<nat>,
    lower: Option<nat>,
    lowerNetnsid: Option<int>,
    vxlanLower: Option<nat>)

  /** One interface runs directly over another. */
  datatype Relationship = Relationship(higher: nat, lower: nat)

  datatype Topology = Topology(interfaces: set<nat>, relationships: set<Relationship>)

  datatype TopologyError = InvalidData

  // ---------- what a valid inventory is, and what it means ----------

  function Indices(links: seq<ObservedLink>): set<nat> {
    set link | link in links :: link.index
  }

  predicate NeedsLower(kind: LinkKind) {
    kind.Vlan? || kind.MacVlan? || kind.IpVlan? || kind.MacVtap?
  }

  /** A VXLAN underlay counts only when it is local and a member of the inventory. */
  predicate HasLocalUnderlay(known: set<nat>, link: ObservedLink) {
    link.kind.Vxlan? && link.lowerNetnsid.None? && link.vxlanLower.Some? && link.vxlanLower.value in known
  }

  predicate Identified(link: ObservedLink) {
    1 <= link.index <= MAX_INDEX && link.name != ""
  }

  predicate Distinct(links: seq<ObservedLink>) {
    forall i, j :: 0 <= i < j < |links| ==> links[i].index != links[j].index && links[i].name != links[j].name
  }

  /** Every reference the link makes is one the topology can honour. */
  predicate Resolves(known: set<nat>, link: ObservedLink) {
    && (link.controller.Some? ==> link.controller.value in known - {link.index})
    && (NeedsLower(link.kind) ==>
          link.lowerNetnsid.None? && link.lower.Some? && link.lower.value in known - {link.index})
    && (HasLocalUnderlay(known, link) ==> link.vxlanLower.value != link.index)
  }

  predicate WellFormed(links: seq<ObservedLink>) {
    && (forall link :: link in links ==> Identified(link) && Resolves(Indices(links), link))
    && Distinct(links)
  }

  /** A bond or bridge of that index is in the inventory. */
  predicate Aggregates(links: seq<ObservedLink>, index: nat) {
    exists master :: master in links && master.index == index && (master.kind.Bond? || master.kind.Bridge?)
  }

  /** `link` is the reason for `r`. */
  predicate Explains(links: seq<ObservedLink>, link: ObservedLink, r: Relationship) {
    || (link.controller == Some(r.higher) && link.index == r.lower && Aggregates(links, r.higher))
    || (link.index == r.higher && NeedsLower(link.kind) && link.lower == Some(r.lower))
    || (link.index == r.higher && HasLocalUnderlay(Indices(links), link) && link.vxlanLower == Some(r.lower))
  }

  predicate RunsOver(links: seq<ObservedLink>, r: Relationship) {
    exists link :: link in links && Explains(links, link, r)
  }

  ghost function TopologyOf(links: seq<ObservedLink>): Topology {
    var known := Indices(links);
    Topology(known,
             set h, l | h in known && l in known && RunsOver(links, Relationship(h, l)) :: Relationship(h, l))
  }

  // ---------- the two-pass validator ----------

  /** The links seen so far, by index. */
  ghost predicate Catalogues(byIndex: map<nat, ObservedLink>, links: seq<ObservedLink>) {
    && (forall link :: link in links ==> link.index in byIndex && byIndex[link.index] == link)
    && (forall k :: k in byIndex ==> byIndex[k] in links && byIndex[k].index == k)
  }

  /** First pass of Topology::from_observed: identities. */
  method CatalogueLinks(links: seq<ObservedLink>) returns (r: Result<map<nat, ObservedLink>, TopologyError>)
    ensures r.Ok? <==> (forall link :: link in links ==> Identified(link)) && Distinct(links)
    ensures r.Ok? ==> Catalogues(r.value, links)
  {
    var byIndex: map<nat, ObservedLink> := map[];
    var byName: map<string, ObservedLink> := map[];
    for i := 0 to |links|
      invariant Catalogued(links[..i], byIndex, byName)
    {
      var link := links[i];
      assert link in links;
      assert links[..i + 1] == links[..i] + [link];
      if link.index == 0 || link.index > MAX_INDEX {
        return Err(InvalidData);
      }
      if link.name == "" {
        return Err(InvalidData);
      }
      if link.index in byIndex {
        Clash(links, i, byIndex[link.index]);
        return Err(InvalidData);
      }
      if link.name in byName {
        Clash(links, i, byName[link.name]);
        return Err(InvalidData);
      }
      CatalogueGrows(links[..i], byIndex, byName, link);
      byIndex := byIndex[link.index := link];
      byName := byName[link.name := link];
    }
    assert links[..|links|] == links;
    return Ok(byIndex);
  }

  /** The links seen so far are valid and distinct, and both maps hold exactly them. */
  ghost predicate Catalogued(seen: seq<ObservedLink>, byIndex: map<nat, ObservedLink>,
                             byName: map<string, ObservedLink>)
  {
    && (forall link :: link in seen ==> Identified(link))
    && Distinct(seen)
    && Catalogues(byIndex, seen)
    && (forall link :: link in seen ==> link.name in byName)
    && (forall n :: n in byName ==> byName[n] in seen && byName[n].name == n)
  }

  lemma CatalogueGrows(seen: seq<ObservedLink>, byIndex: map<nat, ObservedLink>, byName: map<string, ObservedLink>,
                       link: ObservedLink)
    requires Catalogued(seen, byIndex, byName)
    requires Identified(link) && link.index !in byIndex && link.name !in byName
    ensures Catalogued(seen + [link], byIndex[link.index := link], byName[link.name := link])
  {
    var more := seen + [link];
    assert forall x :: x in more <==> x in seen || x == link;
    forall i, j | 0 <= i < j < |more| ensures more[i].index != more[j].index && more[i].name != more[j].name {
      assert more[i] == seen[i] && more[i] in seen;
    }
  }

  /** An earlier link that shares an identity spoils the whole inventory. */
  lemma Clash(links: seq<ObservedLink>, i: nat, earlier: ObservedLink)
    requires i < |links| && earlier in links[..i]
    requires earlier.index == links[i].index || earlier.name == links[i].name
    ensures !Distinct(links)
  {
    var j :| 0 <= j < i && links[..i][j] == earlier;
    assert links[j] == earlier;
  }

  /** Second pass of Topology::from_observed: the references of one link. */
  method RelateLink(links: seq<ObservedLink>, byIndex: map<nat, ObservedLink>, link: ObservedLink)
    returns (r: Result<set<Relationship>, TopologyError>)
    requires Catalogues(byIndex, links)
    ensures r.Ok? <==> Resolves(Indices(links), link)
    ensures r.Ok? ==> forall s :: s in r.value <==> Explains(links, link, s)
  {
    assert byIndex.Keys == Indices(links);
    var relationships: set<Relationship> := {};
    if link.controller.Some? {
      var controllerIndex := link.controller.value;
      if controllerIndex !in byIndex {
        return Err(InvalidData);
      }
      var controller := byIndex[controllerIndex];
      if controller.index == link.index {
        return Err(InvalidData);
      }
      AggregatorIsMapped(links, byIndex, controllerIndex);
      if controller.kind.Bond? || controller.kind.Bridge? {
        relationships := relationships + {Relationship(controller.index, link.index)};
      }
    }
    if NeedsLower(link.kind) {
      if link.lower.None? {
        return Err(InvalidData);
      }
      var lower := link.lower.value;
      if link.lowerNetnsid.Some? {
        return Err(InvalidData);
      }
      if lower == link.index {
        return Err(InvalidData);
      }
      if lower !in byIndex {
        return Err(InvalidData);
      }
      relationships := relationships + {Relationship(link.index, lower)};
    } else if link.kind.Vxlan? && link.lowerNetnsid.None? {
      if link.vxlanLower.Some? && link.vxlanLower.value in byIndex {
        var lower := link.vxlanLower.value;
        if lower == link.index {
          return Err(InvalidData);
        }
        relationships := relationships + {Relationship(link.index, lower)};
      }
    }
    return Ok(relationships);
  }

  /** Topology::from_observed. */
  method FromObserved(links: seq<ObservedLink>) returns (r: Result<Topology, TopologyError>)
    ensures r.Ok? <==> WellFormed(links)
    ensures r.Ok? ==> r.value == TopologyOf(links)
  {
    var catalogue := CatalogueLinks(links);
    if catalogue.Err? {
      return Err(catalogue.error);
    }
    var byIndex := catalogue.value;
    assert byIndex.Keys == Indices(links);
    var relationships: set<Relationship> := {};
    for i := 0 to |links|
      invariant forall j :: 0 <= j < i ==> Resolves(Indices(links), links[j])
      invariant forall s :: s in relationships <==> exists j :: 0 <= j < i && Explains(links, links[j], s)
    {
      var added := RelateLink(links, byIndex, links[i]);
      if added.Err? {
        assert links[i] in links;
        return Err(added.error);
      }
      relationships := relationships + added.value;
    }
    assert WellFormed(links);
    TopologySound(links);
    return Ok(Topology(byIndex.Keys, relationships));
  }

  /** The link stored under an index decides whether that index aggregates. */
  lemma AggregatorIsMapped(links: seq<ObservedLink>, byIndex: map<nat, ObservedLink>, index: nat)
    requires Catalogues(byIndex, links) && index in byIndex
    ensures Aggregates(links, index) <==> byIndex[index].kind.Bond? || byIndex[index].kind.Bridge?
  {
    if Aggregates(links, index) {
      var master :| master in links && master.index == index && (master.kind.Bond? || master.kind.Bridge?);
      assert byIndex[master.index] == master;
    }
  }

  /** What a well-formed inventory explains stays inside it and never on itself. */
  lemma ExplainedWithin(links: seq<ObservedLink>)
    requires WellFormed(links)
    ensures forall link, r :: link in links && Explains(links, link, r) ==>
              r.higher in Indices(links) && r.lower in Indices(links) && r.higher != r.lower
  {
    forall link, r | link in links && Explains(links, link, r)
      ensures r.higher in Indices(links) && r.lower in Indices(links) && r.higher != r.lower
    {
      assert Resolves(Indices(links), link);
    }
  }

  // ---------- properties of the verdict and of the relation ----------

  /** What every consumer of a topology may rely on. */
  ghost predicate Consistent(t: Topology) {
    && (forall i :: i in t.interfaces ==> 1 <= i <= MAX_INDEX)
    && (forall r :: r in t.relationships ==>
          r.higher in t.interfaces && r.lower in t.interfaces && r.higher != r.lower)
  }

  lemma TopologySound(links: seq<ObservedLink>)
    requires WellFormed(links)
    ensures Consistent(TopologyOf(links))
    ensures forall r :: RunsOver(links, r) <==> r in TopologyOf(links).relationships
  {
    ExplainedWithin(links);
  }

  predicate Listed(links: seq<ObservedLink>, index: nat) {
    exists u :: u in links && u.index == index
  }

  /**
   * The topology link by link: a bond or bridge above each of its ports; a VLAN, MACVLAN, IPVLAN or MACVTAP above its
   * lower interface; a VXLAN above its underlay if that is local and listed; and nothing else.
   */
  lemma RelationshipRules(links: seq<ObservedLink>)
    requires WellFormed(links)
    ensures forall i :: i in TopologyOf(links).interfaces <==> Listed(links, i)
    ensures forall h: nat, l: nat :: Relationship(h, l) in TopologyOf(links).relationships <==>
              exists p :: p in links &&
                (|| (p.index == l && p.controller == Some(h) &&
                     exists c :: c in links && c.index == h && (c.kind == Bond || c.kind == Bridge))
                 || (p.index == h && p.lower == Some(l) &&
                     (p.kind == Vlan || p.kind == MacVlan || p.kind == IpVlan || p.kind == MacVtap))
                 || (p.index == h && p.vxlanLower == Some(l) &&
                     p.kind == Vxlan && p.lowerNetnsid == None && Listed(links, l)))
  {
    TopologySound(links);
    assert forall i :: i in Indices(links) <==> Listed(links, i);
    forall h: nat, l: nat, p ensures Explains(links, p, Relationship(h, l)) <==> StandsAbove(links, p, h, l) {
      ExplanationRules(links, p, h, l);
    }
    forall h: nat, l: nat
      ensures Relationship(h, l) in TopologyOf(links).relationships <==>
              exists p :: p in links && StandsAbove(links, p, h, l)
    {
      assert RunsOver(links, Relationship(h, l)) <==> Relationship(h, l) in TopologyOf(links).relationships;
    }
  }

  predicate StandsAbove(links: seq<ObservedLink>, p: ObservedLink, h: nat, l: nat) {
    || (p.index == l && p.controller == Some(h) &&
        exists c :: c in links && c.index == h && (c.kind == Bond || c.kind == Bridge))
    || (p.index == h && p.lower == Some(l) &&
        (p.kind == Vlan || p.kind == MacVlan || p.kind == IpVlan || p.kind == MacVtap))
    || (p.index == h && p.vxlanLower == Some(l) &&
        p.kind == Vxlan && p.lowerNetnsid == None && Listed(links, l))
  }

  lemma ExplanationRules(links: seq<ObservedLink>, p: ObservedLink, h: nat, l: nat)
    ensures Explains(links, p, Relationship(h, l)) <==> StandsAbove(links, p, h, l)
  {
    assert l in Indices(links) <==> Listed(links, l);
  }

  /** Which inventories are rejected, field by field. */
  lemma RejectionRules(links: seq<ObservedLink>)
    ensures WellFormed(links) <==>
            && (forall i, j :: 0 <= i < j < |links| ==>
                  links[i].index != links[j].index && links[i].name != links[j].name)
            && (forall p :: p in links ==>
                  && 1 <= p.index <= 2147483647 && p.name != ""
                  && (p.controller.Some? ==> p.controller.value != p.index && Listed(links, p.controller.value))
                  && (p.kind == Vlan || p.kind == MacVlan || p.kind == IpVlan || p.kind == MacVtap ==>
                        && p.lowerNetnsid == None
                        && p.lower.Some? && p.lower.value != p.index && Listed(links, p.lower.value))
                  && (p.kind == Vxlan && p.lowerNetnsid == None ==> p.vxlanLower != Some(p.index)))
  {
    assert forall i :: i in Indices(links) <==> Listed(links, i);
  }

  /** Verdict and topology do not depend on the order the kernel lists links in. */
  lemma OrderFree(a: seq<ObservedLink>, b: seq<ObservedLink>)
    requires Permuted(a, b)
    ensures WellFormed(a) <==> WellFormed(b)
    ensures TopologyOf(a) == TopologyOf(b)
  {
    SameMembers(a, b);
    if Distinct(a) {
      DistinctPermuted(a, b);
    }
    if Distinct(b) {
      DistinctPermuted(b, a);
    }
    assert Indices(a) == Indices(b);
    forall index ensures Aggregates(a, index) <==> Aggregates(b, index) {
    }
    forall link, r ensures Explains(a, link, r) <==> Explains(b, link, r) {
    }
    forall r ensures RunsOver(a, r) <==> RunsOver(b, r) {
    }
  }

  lemma SameMembers<T>(a: seq<T>, b: seq<T>)
    requires Permuted(a, b)
    ensures forall x :: x in a <==> x in b
  {
    forall x ensures x in a <==> x in b {
      assert x in a <==> x in multiset(a);
      assert x in b <==> x in multiset(b);
    }
  }

  lemma DistinctPermuted(a: seq<ObservedLink>, b: seq<ObservedLink>)
    requires Permuted(a, b) && Distinct(a)
    ensures Distinct(b)
  {
    SameMembers(a, b);
    forall i, j | 0 <= i < j < |b| ensures b[i].index != b[j].index && b[i].name != b[j].name {
      if b[i] == b[j] {
        CountsTwice(b, b[i]);
        CountsTwice(a, b[i]);
        assert false;
      }
      assert b[i] in b && b[j] in b;
      var p :| 0 <= p < |a| && a[p] == b[i];
      var q :| 0 <= q < |a| && a[q] == b[j];
      assert p < q || q < p;
    }
  }
}
