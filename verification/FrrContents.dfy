/** What a written FRRConfiguration says, path by path. */
module FrrContents {
  import opened Options
  import opened Text
  import opened Labels
  import opened PlatformTypes
  import opened Json
  import opened FrrRender
  import opened FrrWriter
  import opened FrrConfigurations

  /** The value at a path is the given one. */
  predicate Has(j: J, path: seq<Step>, v: J) {
    At(j, path) == Some(v)
  }

  predicate Lacks(j: J, path: seq<Step>) {
    At(j, path) == None
  }

  function Router(): seq<Step> {
    [Key("bgp"), Key("routers"), Index(0)]
  }

  function NeighborPath(i: nat): seq<Step> {
    Router() + [Key("neighbors"), Index(i)]
  }

  function ProfilePath(): seq<Step> {
    [Key("bgp"), Key("bfdProfiles"), Index(0)]
  }

  // ---------------------------------------------------------------- walking the tree

  lemma {:induction false} AtConcat(j: J, a: seq<Step>, b: seq<Step>)
    ensures At(j, a + b) == if At(j, a).Some? then At(At(j, a).value, b) else None
    decreases |a|
  {
    if a == [] {
      assert a + b == b;
    } else {
      assert (a + b)[1..] == a[1..] + b;
      match a[0]
      case Key(k) => if j.Obj? && k in j.fields { AtConcat(j.fields[k], a[1..], b); }
      case Index(i) => if j.List? && i < |j.items| { AtConcat(j.items[i], a[1..], b); }
    }
  }

  lemma One(j: J, s: Step)
    ensures At(j, [s]) ==
            match s
            case Key(k) => if j.Obj? && k in j.fields then Some(j.fields[k]) else None
            case Index(i) => if j.List? && i < |j.items| then Some(j.items[i]) else None
  {
    assert [s][1..] == [];
  }

  lemma Two(j: J, s: Step, t: Step)
    ensures At(j, [s, t]) == if At(j, [s]).Some? then At(At(j, [s]).value, [t]) else None
  {
    assert [s, t] == [s] + [t];
    AtConcat(j, [s], [t]);
  }

  lemma Three(j: J, s: Step, t: Step, u: Step)
    ensures At(j, [s, t, u]) == if At(j, [s, t]).Some? then At(At(j, [s, t]).value, [u]) else None
  {
    assert [s, t, u] == [s, t] + [u];
    AtConcat(j, [s, t], [u]);
  }

  // ------------------------------------------------------------------ the rendering

  lemma RouterIs(settings: Settings, group: PeerGroup)
    ensures At(SpecJson(settings, group), Router()) == Some(RouterJson(settings, group.neighbors))
    ensures At(SpecJson(settings, group), [Key("bgp"), Key("routers")])
            == Some(List([RouterJson(settings, group.neighbors)]))
  {
    var spec := SpecJson(settings, group);
    One(spec, Key("bgp"));
    Two(spec, Key("bgp"), Key("routers"));
    One(BgpJson(settings, group.neighbors), Key("routers"));
    Three(spec, Key("bgp"), Key("routers"), Index(0));
    One(List([RouterJson(settings, group.neighbors)]), Index(0));
  }

  lemma NeighborIs(settings: Settings, group: PeerGroup, i: nat)
    requires i < |group.neighbors|
    ensures At(SpecJson(settings, group), NeighborPath(i)) == Some(NeighborJson(group.neighbors[i], settings.bfd))
  {
    var spec, router := SpecJson(settings, group), RouterJson(settings, group.neighbors);
    RouterIs(settings, group);
    AtConcat(spec, Router(), [Key("neighbors"), Index(i)]);
    Two(router, Key("neighbors"), Index(i));
    One(router, Key("neighbors"));
    One(NeighborsJson(group.neighbors, settings.bfd), Index(i));
  }

  /** The router: one of it, with the local ASN and as many neighbours as the group. */
  lemma RouterReads(settings: Settings, group: PeerGroup)
    ensures var spec := SpecJson(settings, group);
            && Has(spec, Router() + [Key("asn")], Int(settings.localASN))
            && Lacks(spec, [Key("bgp"), Key("routers"), Index(1)])
            && forall i: nat :: At(spec, NeighborPath(i)).Some? <==> i < |group.neighbors|
  {
    var spec, router := SpecJson(settings, group), RouterJson(settings, group.neighbors);
    RouterIs(settings, group);
    AtConcat(spec, Router(), [Key("asn")]);
    One(router, Key("asn"));
    Three(spec, Key("bgp"), Key("routers"), Index(1));
    One(List([router]), Index(1));
    forall i: nat ensures At(spec, NeighborPath(i)).Some? <==> i < |group.neighbors| {
      AtConcat(spec, Router(), [Key("neighbors"), Index(i)]);
      Two(router, Key("neighbors"), Index(i));
      One(router, Key("neighbors"));
      One(NeighborsJson(group.neighbors, settings.bfd), Index(i));
    }
  }

  lemma NeighborAt(settings: Settings, group: PeerGroup, i: nat, k: string)
    requires i < |group.neighbors|
    ensures var fields := NeighborJson(group.neighbors[i], settings.bfd).fields;
            At(SpecJson(settings, group), NeighborPath(i) + [Key(k)]) == if k in fields then Some(fields[k]) else None
  {
    NeighborIs(settings, group, i);
    AtConcat(SpecJson(settings, group), NeighborPath(i), [Key(k)]);
    One(NeighborJson(group.neighbors[i], settings.bfd), Key(k));
    hide SpecJson, At, NeighborPath;
  }

  lemma NeighborKeys(n: Neighbor, bfd: bool)
    ensures var fields := NeighborJson(n, bfd).fields;
            && "address" in fields && fields["address"] == Str(n.address)
            && "asn" in fields && fields["asn"] == Int(n.asn)
            && "disableMP" in fields && fields["disableMP"] == Bool(true)
            && ("ebgpMultiHop" in fields <==> n.multiHop)
            && (n.multiHop ==> fields["ebgpMultiHop"] == Bool(true))
            && ("bfdProfile" in fields <==> bfd)
            && (bfd ==> fields["bfdProfile"] == Str("default"))
  {}

  /** Each neighbour: its address and ASN, multi-protocol off, everything accepted; the
      multi-hop flag and the BFD profile there only where they are on. */
  lemma NeighborReadsAt(settings: Settings, group: PeerGroup, i: nat)
    requires i < |group.neighbors|
    ensures var spec, n, path := SpecJson(settings, group), group.neighbors[i], NeighborPath(i);
            && Has(spec, path + [Key("address")], Str(n.address))
            && Has(spec, path + [Key("asn")], Int(n.asn))
            && Has(spec, path + [Key("disableMP")], Bool(true))
            && Has(spec, path + [Key("toReceive"), Key("allowed"), Key("mode")], Str("all"))
            && At(spec, path + [Key("ebgpMultiHop")]) == (if n.multiHop then Some(Bool(true)) else None)
            && At(spec, path + [Key("bfdProfile")]) == (if settings.bfd then Some(Str("default")) else None)
  {
    var n := group.neighbors[i];
    NeighborKeys(n, settings.bfd);
    NeighborIs(settings, group, i);
    AtConcat(SpecJson(settings, group), NeighborPath(i), [Key("toReceive"), Key("allowed"), Key("mode")]);
    ReceiveReads(n, settings.bfd);
    NeighborAt(settings, group, i, "address");
    NeighborAt(settings, group, i, "asn");
    NeighborAt(settings, group, i, "disableMP");
    NeighborAt(settings, group, i, "ebgpMultiHop");
    NeighborAt(settings, group, i, "bfdProfile");
    hide SpecJson, At, NeighborPath, NeighborJson;
  }

  lemma ReceiveReads(n: Neighbor, bfd: bool)
    ensures At(NeighborJson(n, bfd), [Key("toReceive"), Key("allowed"), Key("mode")]) == Some(Str("all"))
  {
    var j := NeighborJson(n, bfd);
    Three(j, Key("toReceive"), Key("allowed"), Key("mode"));
    Two(j, Key("toReceive"), Key("allowed"));
    One(j, Key("toReceive"));
    One(j.fields["toReceive"], Key("allowed"));
    One(j.fields["toReceive"].fields["allowed"], Key("mode"));
  }

  lemma ProfilesAre(settings: Settings, group: PeerGroup)
    ensures At(SpecJson(settings, group), [Key("bgp"), Key("bfdProfiles")])
            == if settings.bfd then Some(List([Profile()])) else None
  {
    var spec := SpecJson(settings, group);
    One(spec, Key("bgp"));
    Two(spec, Key("bgp"), Key("bfdProfiles"));
    One(BgpJson(settings, group.neighbors), Key("bfdProfiles"));
  }

  lemma ProfileAt(settings: Settings, group: PeerGroup, k: string)
    requires settings.bfd && k in Profile().fields
    ensures At(SpecJson(settings, group), ProfilePath() + [Key(k)]) == Some(Profile().fields[k])
  {
    ProfilesAre(settings, group);
    AtConcat(SpecJson(settings, group), [Key("bgp"), Key("bfdProfiles")], [Index(0), Key(k)]);
    assert [Key("bgp"), Key("bfdProfiles")] + [Index(0), Key(k)] == ProfilePath() + [Key(k)];
    Two(List([Profile()]), Index(0), Key(k));
    One(List([Profile()]), Index(0));
    One(Profile(), Key(k));
    hide SpecJson, At;
  }

  /** One BFD profile, and only where BFD is asked for: 300 ms either way, three missed. */
  lemma ProfileReads(settings: Settings, group: PeerGroup)
    ensures var spec, path := SpecJson(settings, group), ProfilePath();
            if settings.bfd then
              && Has(spec, path + [Key("name")], Str("default"))
              && Has(spec, path + [Key("receiveInterval")], Int(300))
              && Has(spec, path + [Key("transmitInterval")], Int(300))
              && Has(spec, path + [Key("detectMultiplier")], Int(3))
              && Lacks(spec, [Key("bgp"), Key("bfdProfiles"), Index(1)])
            else Lacks(spec, [Key("bgp"), Key("bfdProfiles")])
  {
    var spec, profiles := SpecJson(settings, group), List([Profile()]);
    ProfilesAre(settings, group);
    if settings.bfd {
      AtConcat(spec, [Key("bgp"), Key("bfdProfiles")], [Index(1)]);
      One(profiles, Index(1));
      assert [Key("bgp"), Key("bfdProfiles")] + [Index(1)] == [Key("bgp"), Key("bfdProfiles"), Index(1)];
      ProfileAt(settings, group, "name");
      ProfileAt(settings, group, "receiveInterval");
      ProfileAt(settings, group, "transmitInterval");
      ProfileAt(settings, group, "detectMultiplier");
      hide SpecJson, At, ProfilePath;
    }
  }

  /** Which nodes: those with every label of the router selector and of the group's,
      the group's value counting where both name a label. */
  lemma SelectorReads(settings: Settings, group: PeerGroup, name: string)
    ensures At(SpecJson(settings, group), [Key("nodeSelector"), Key("matchLabels"), Key(name)]) ==
            if name in group.selector then Some(Str(group.selector[name]))
            else if name in settings.routerNodeSelector then Some(Str(settings.routerNodeSelector[name]))
            else None
  {
    var spec, labels := SpecJson(settings, group), settings.routerNodeSelector + group.selector;
    One(spec, Key("nodeSelector"));
    Two(spec, Key("nodeSelector"), Key("matchLabels"));
    One(SelectorJson(labels), Key("matchLabels"));
    Three(spec, Key("nodeSelector"), Key("matchLabels"), Key(name));
    One(LabelsJson(labels), Key(name));
  }

  /** The raw directives as they are, at priority 20, and only where there are some. */
  lemma RawReads(settings: Settings, group: PeerGroup)
    ensures var spec := SpecJson(settings, group);
            if group.raw != "" then
              && Has(spec, [Key("raw"), Key("priority")], Int(20))
              && Has(spec, [Key("raw"), Key("rawConfig")], Str(group.raw))
            else Lacks(spec, [Key("raw")])
  {
    var spec, raw := SpecJson(settings, group), RawJson(group.raw);
    One(spec, Key("raw"));
    Two(spec, Key("raw"), Key("priority"));
    Two(spec, Key("raw"), Key("rawConfig"));
    One(raw, Key("priority"));
    One(raw, Key("rawConfig"));
  }

  // -------------------------------------------------------------- the stored objects

  predicate Leaf(v: J) {
    !v.Obj? && !v.List?
  }

  /** A leaf of the rendering is in every object that passes for it. */
  lemma LeafIsStored(o: Object, settings: Settings, group: PeerGroup, path: seq<Step>, v: J)
    requires Fulfils(o, ManagedLabels(), SpecJson(settings, group)) && Has(SpecJson(settings, group), path, v)
    ensures At(o.spec, path).Some? && (Leaf(v) ==> Has(o.spec, path, v))
    ensures v.List? ==> At(o.spec, path).value.List? && |At(o.spec, path).value.items| == |v.items|
  {
    NoNulls(settings, group);
    hide SpecJson;
    SatisfiedAt(o.spec, SpecJson(settings, group), path);
  }

  /** The object made for position i is named bgp-cc- and the decimal number i + 1. */
  lemma NameReads(i: nat)
    ensures var name := ConfigName(i);
            && |name| > 7 && name[..7] == "bgp-cc-" && (forall k :: 7 <= k < |name| ==> IsDigit(name[k]))
            && Decimal(name[7..]) == i + 1
  {
    DecimalItoa(i + 1);
    assert ConfigName(i)[7..] == Itoa(i + 1);
  }

  predicate StoredNeighbor(spec: J, path: seq<Step>, n: Neighbor, bfd: bool) {
    && Has(spec, path + [Key("address")], Str(n.address))
    && Has(spec, path + [Key("asn")], Int(n.asn))
    && Has(spec, path + [Key("disableMP")], Bool(true))
    && Has(spec, path + [Key("toReceive"), Key("allowed"), Key("mode")], Str("all"))
    && (n.multiHop ==> Has(spec, path + [Key("ebgpMultiHop")], Bool(true)))
    && (bfd ==> Has(spec, path + [Key("bfdProfile")], Str("default")))
  }

  predicate StoredLabel(spec: J, name: string, value: string) {
    Has(spec, [Key("nodeSelector"), Key("matchLabels"), Key(name)], Str(value))
  }

  lemma RouterStored(o: Object, settings: Settings, g: PeerGroup)
    requires Fulfils(o, ManagedLabels(), SpecJson(settings, g))
    ensures Has(o.spec, Router() + [Key("asn")], Int(settings.localASN))
    ensures At(o.spec, Router() + [Key("neighbors")]).Some?
            && var list := At(o.spec, Router() + [Key("neighbors")]).value;
               list.List? && |list.items| == |g.neighbors|
  {
    RouterReads(settings, g);
    LeafIsStored(o, settings, g, Router() + [Key("asn")], Int(settings.localASN));
    RouterIs(settings, g);
    AtConcat(SpecJson(settings, g), Router(), [Key("neighbors")]);
    One(RouterJson(settings, g.neighbors), Key("neighbors"));
    LeafIsStored(o, settings, g, Router() + [Key("neighbors")], NeighborsJson(g.neighbors, settings.bfd));
  }

  lemma NeighborStored(o: Object, settings: Settings, g: PeerGroup, k: nat)
    requires Fulfils(o, ManagedLabels(), SpecJson(settings, g)) && k < |g.neighbors|
    ensures StoredNeighbor(o.spec, NeighborPath(k), g.neighbors[k], settings.bfd)
  {
    var n, path := g.neighbors[k], NeighborPath(k);
    NeighborReadsAt(settings, g, k);
    hide SpecJson, Fulfils;
    LeafIsStored(o, settings, g, path + [Key("address")], Str(n.address));
    LeafIsStored(o, settings, g, path + [Key("asn")], Int(n.asn));
    LeafIsStored(o, settings, g, path + [Key("disableMP")], Bool(true));
    LeafIsStored(o, settings, g, path + [Key("toReceive"), Key("allowed"), Key("mode")], Str("all"));
    if n.multiHop { LeafIsStored(o, settings, g, path + [Key("ebgpMultiHop")], Bool(true)); }
    if settings.bfd { LeafIsStored(o, settings, g, path + [Key("bfdProfile")], Str("default")); }
  }

  lemma RestStored(o: Object, settings: Settings, g: PeerGroup)
    requires Fulfils(o, ManagedLabels(), SpecJson(settings, g))
    ensures settings.bfd ==> Has(o.spec, ProfilePath() + [Key("name")], Str("default"))
                             && Has(o.spec, ProfilePath() + [Key("receiveInterval")], Int(300))
                             && Has(o.spec, ProfilePath() + [Key("transmitInterval")], Int(300))
                             && Has(o.spec, ProfilePath() + [Key("detectMultiplier")], Int(3))
    ensures g.raw != "" ==> Has(o.spec, [Key("raw"), Key("priority")], Int(20))
                            && Has(o.spec, [Key("raw"), Key("rawConfig")], Str(g.raw))
  {
    ProfileReads(settings, g);
    RawReads(settings, g);
    hide SpecJson, Fulfils;
    if settings.bfd {
      LeafIsStored(o, settings, g, ProfilePath() + [Key("name")], Str("default"));
      LeafIsStored(o, settings, g, ProfilePath() + [Key("receiveInterval")], Int(300));
      LeafIsStored(o, settings, g, ProfilePath() + [Key("transmitInterval")], Int(300));
      LeafIsStored(o, settings, g, ProfilePath() + [Key("detectMultiplier")], Int(3));
    }
    if g.raw != "" {
      LeafIsStored(o, settings, g, [Key("raw"), Key("priority")], Int(20));
      LeafIsStored(o, settings, g, [Key("raw"), Key("rawConfig")], Str(g.raw));
    }
  }

  lemma LabelStored(o: Object, settings: Settings, g: PeerGroup, name: string, value: string)
    requires Fulfils(o, ManagedLabels(), SpecJson(settings, g))
    requires if name in g.selector then value == g.selector[name]
             else name in settings.routerNodeSelector && value == settings.routerNodeSelector[name]
    ensures StoredLabel(o.spec, name, value)
  {
    SelectorReads(settings, g, name);
    hide SpecJson, Fulfils;
    LeafIsStored(o, settings, g, [Key("nodeSelector"), Key("matchLabels"), Key(name)], Str(value));
  }

  /** After a successful EnsureFRRConfigurationsFromGroups: the object of each group has
      the operator's label, one router with the local ASN, exactly the neighbours of
      the group with their addresses and ASNs, the flags that are on, and the
      selector labels and raw directives asked for. */
  lemma StoredReads(objects: Objects, settings: Settings, groups: seq<PeerGroup>, i: nat)
    requires InOrder(objects, settings, groups) && i < |groups|
    ensures ConfigName(i) in objects
    ensures var o, g := objects[ConfigName(i)], groups[i];
            && "app.kubernetes.io/managed-by" in o.labels
            && o.labels["app.kubernetes.io/managed-by"] == "bgp-cloud-connector"
            && Has(o.spec, Router() + [Key("asn")], Int(settings.localASN))
            && At(o.spec, Router() + [Key("neighbors")]).Some?
            && var list := At(o.spec, Router() + [Key("neighbors")]).value;
               list.List? && |list.items| == |g.neighbors|
    ensures var o, g := objects[ConfigName(i)], groups[i];
            && (forall k :: 0 <= k < |g.neighbors| ==>
                  StoredNeighbor(o.spec, NeighborPath(k), g.neighbors[k], settings.bfd))
            && (settings.bfd ==> Has(o.spec, ProfilePath() + [Key("name")], Str("default"))
                                 && Has(o.spec, ProfilePath() + [Key("receiveInterval")], Int(300))
                                 && Has(o.spec, ProfilePath() + [Key("transmitInterval")], Int(300))
                                 && Has(o.spec, ProfilePath() + [Key("detectMultiplier")], Int(3)))
            && (g.raw != "" ==> Has(o.spec, [Key("raw"), Key("priority")], Int(20))
                                && Has(o.spec, [Key("raw"), Key("rawConfig")], Str(g.raw)))
            && (forall name :: name in g.selector ==> StoredLabel(o.spec, name, g.selector[name]))
            && (forall name :: name in settings.routerNodeSelector && name !in g.selector ==>
                  StoredLabel(o.spec, name, settings.routerNodeSelector[name]))
  {
    var o, g := objects[ConfigName(i)], groups[i];
    assert Fulfils(o, ManagedLabels(), SpecJson(settings, g));
    assert LABEL_MANAGED_BY in ManagedLabels();
    hide SpecJson, Fulfils, InOrder, Has, At;
    RouterStored(o, settings, g);
    forall k | 0 <= k < |g.neighbors| ensures StoredNeighbor(o.spec, NeighborPath(k), g.neighbors[k], settings.bfd) {
      NeighborStored(o, settings, g, k);
    }
    RestStored(o, settings, g);
    forall name | name in g.selector ensures StoredLabel(o.spec, name, g.selector[name]) {
      LabelStored(o, settings, g, name, g.selector[name]);
    }
    forall name | name in settings.routerNodeSelector && name !in g.selector
      ensures StoredLabel(o.spec, name, settings.routerNodeSelector[name])
    {
      LabelStored(o, settings, g, name, settings.routerNodeSelector[name]);
    }
  }
}
