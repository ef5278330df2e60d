/** The FRRConfiguration a peer group becomes. */
module FrrRender {
  import opened Labels
  import opened PlatformTypes
  import opened Json

  const RAW_PRIORITY := 20

  /** What the rendering takes from the configuration. */
  datatype Settings = Settings(routerNodeSelector: LabelMap, localASN: int, bfd: bool)

  function NeighborFields(n: Neighbor): map<string, J> {
    map["address" := Str(n.address), "asn" := Int(n.asn), "disableMP" := Bool(true),
        "toReceive" := Obj(map["allowed" := Obj(map["mode" := Str("all")])])]
  }

  function HopFields(n: Neighbor): map<string, J> {
    if n.multiHop then NeighborFields(n)["ebgpMultiHop" := Bool(true)] else NeighborFields(n)
  }

  function NeighborJson(n: Neighbor, bfd: bool): J {
    Obj(if bfd then HopFields(n)["bfdProfile" := Str("default")] else HopFields(n))
  }

  function NeighborsJson(ns: seq<Neighbor>, bfd: bool): J {
    List(seq(|ns|, i requires 0 <= i < |ns| => NeighborJson(ns[i], bfd)))
  }

  function Profile(): J {
    Obj(map["name" := Str("default"), "receiveInterval" := Int(300), "transmitInterval" := Int(300),
            "detectMultiplier" := Int(3)])
  }

  function RouterJson(settings: Settings, ns: seq<Neighbor>): J {
    Obj(map["asn" := Int(settings.localASN), "neighbors" := NeighborsJson(ns, settings.bfd)])
  }

  function BgpJson(settings: Settings, ns: seq<Neighbor>): J {
    var fields := map["routers" := List([RouterJson(settings, ns)])];
    Obj(if settings.bfd then fields["bfdProfiles" := List([Profile()])] else fields)
  }

  function LabelsJson(labels: LabelMap): J {
    Obj(map k | k in labels :: Str(labels[k]))
  }

  function RawJson(raw: string): J {
    Obj(map["priority" := Int(RAW_PRIORITY), "rawConfig" := Str(raw)])
  }

  function SelectorJson(labels: LabelMap): J {
    Obj(map["matchLabels" := LabelsJson(labels)])
  }

  function SpecFields(settings: Settings, group: PeerGroup): map<string, J> {
    map["nodeSelector" := SelectorJson(settings.routerNodeSelector + group.selector),
        "bgp" := BgpJson(settings, group.neighbors)]
  }

  function SpecJson(settings: Settings, group: PeerGroup): J {
    Obj(if group.raw != "" then SpecFields(settings, group)["raw" := RawJson(group.raw)]
        else SpecFields(settings, group))
  }

  // ---------------------------------------------------- which changes are written

  predicate NeighborCovered(have: Neighbor, haveBfd: bool, want: Neighbor, wantBfd: bool) {
    have.address == want.address && have.asn == want.asn && (want.multiHop ==> have.multiHop) && (wantBfd ==> haveBfd)
  }

  predicate LabelsCovered(have: LabelMap, want: LabelMap) {
    forall k :: k in want ==> k in have && have[k] == want[k]
  }

  /** One plan asks for nothing that another does not ask for too. */
  predicate Covered(hs: Settings, hg: PeerGroup, ws: Settings, wg: PeerGroup) {
    && hs.localASN == ws.localASN && (ws.bfd ==> hs.bfd)
    && |hg.neighbors| == |wg.neighbors|
    && (forall i :: 0 <= i < |wg.neighbors| ==> NeighborCovered(hg.neighbors[i], hs.bfd, wg.neighbors[i], ws.bfd))
    && LabelsCovered(hs.routerNodeSelector + hg.selector, ws.routerNodeSelector + wg.selector)
    && (wg.raw != "" ==> hg.raw == wg.raw)
  }

  lemma NeighborReads(n: Neighbor, bfd: bool)
    ensures var j := NeighborJson(n, bfd);
            && Field(j, "address") == Str(n.address) && Field(j, "asn") == Int(n.asn)
            && Field(j, "disableMP") == Bool(true) && Field(j, "toReceive") == NeighborFields(n)["toReceive"]
            && (Field(j, "ebgpMultiHop") == if n.multiHop then Bool(true) else Null)
            && (Field(j, "bfdProfile") == if bfd then Str("default") else Null)
  {}

  lemma FieldsSatisfied(have: J, n: Neighbor)
    requires have.Obj? && Field(have, "disableMP") == Bool(true)
    requires Field(have, "toReceive") == NeighborFields(n)["toReceive"]
    ensures SpecSatisfied(have, Obj(NeighborFields(n))) <==>
            Field(have, "address") == Str(n.address) && Field(have, "asn") == Int(n.asn)
  {
    var want := NeighborFields(n);
    Reflexive(want["toReceive"]);
    if SpecSatisfied(have, Obj(want)) {
      assert SpecSatisfied(Field(have, "address"), want["address"]) && SpecSatisfied(Field(have, "asn"), want["asn"]);
    }
  }

  lemma NeighborSatisfied(a: Neighbor, aBfd: bool, b: Neighbor, bBfd: bool)
    ensures SpecSatisfied(NeighborJson(a, aBfd), NeighborJson(b, bBfd)) <==> NeighborCovered(a, aBfd, b, bBfd)
  {
    var have := NeighborJson(a, aBfd);
    NeighborReads(a, aBfd);
    FieldsSatisfied(have, b);
    NeighborFieldsOnly(b);
    OneMoreField(have, NeighborFields(b), "ebgpMultiHop", Bool(true));
    OneMoreField(have, HopFields(b), "bfdProfile", Str("default"));
  }

  lemma NeighborFieldsOnly(n: Neighbor)
    ensures "ebgpMultiHop" !in NeighborFields(n) && "bfdProfile" !in HopFields(n)
  {}

  lemma NeighborsSatisfied(a: seq<Neighbor>, aBfd: bool, b: seq<Neighbor>, bBfd: bool)
    ensures SpecSatisfied(NeighborsJson(a, aBfd), NeighborsJson(b, bBfd)) <==>
            |a| == |b| && forall i :: 0 <= i < |b| ==> NeighborCovered(a[i], aBfd, b[i], bBfd)
  {
    if |a| == |b| {
      forall i | 0 <= i < |b|
        ensures SpecSatisfied(NeighborsJson(a, aBfd).items[i], NeighborsJson(b, bBfd).items[i]) <==>
                NeighborCovered(a[i], aBfd, b[i], bBfd)
      {
        NeighborSatisfied(a[i], aBfd, b[i], bBfd);
      }
    }
  }

  lemma RouterSatisfied(a: Settings, ns: seq<Neighbor>, b: Settings, ms: seq<Neighbor>)
    ensures SpecSatisfied(RouterJson(a, ns), RouterJson(b, ms)) <==>
            a.localASN == b.localASN && SpecSatisfied(NeighborsJson(ns, a.bfd), NeighborsJson(ms, b.bfd))
  {
    var have, want := RouterJson(a, ns), RouterJson(b, ms);
    assert SpecSatisfied(have, want) ==>
        && SpecSatisfied(Field(have, "asn"), Int(b.localASN))
        && SpecSatisfied(Field(have, "neighbors"), want.fields["neighbors"]);
  }

  lemma BgpSatisfied(a: Settings, ns: seq<Neighbor>, b: Settings, ms: seq<Neighbor>)
    ensures SpecSatisfied(BgpJson(a, ns), BgpJson(b, ms)) <==>
            (b.bfd ==> a.bfd) && SpecSatisfied(RouterJson(a, ns), RouterJson(b, ms))
  {
    var have, want := BgpJson(a, ns), BgpJson(b, ms);
    var haveRouters, wantRouters := have.fields["routers"], want.fields["routers"];
    assert SpecSatisfied(haveRouters, wantRouters) <==> SpecSatisfied(haveRouters.items[0], wantRouters.items[0]);
    Reflexive(List([Profile()]));
    assert SpecSatisfied(have, want) ==>
        && SpecSatisfied(Field(have, "routers"), wantRouters)
        && (b.bfd ==> SpecSatisfied(Field(have, "bfdProfiles"), want.fields["bfdProfiles"]));
  }

  lemma LabelsJsonSatisfied(a: LabelMap, b: LabelMap)
    ensures SpecSatisfied(LabelsJson(a), LabelsJson(b)) <==> LabelsCovered(a, b)
  {
    var have, want := LabelsJson(a), LabelsJson(b);
    forall k | k in b ensures SpecSatisfied(Field(have, k), want.fields[k]) <==> k in a && a[k] == b[k] {}
  }

  lemma RawSatisfied(a: string, b: string)
    ensures SpecSatisfied(RawJson(a), RawJson(b)) <==> a == b
  {
    var have, want := RawJson(a), RawJson(b);
    assert SpecSatisfied(have, want) ==> SpecSatisfied(Field(have, "rawConfig"), Str(b));
    Reflexive(have);
  }

  /** With an object left by an earlier plan, the comparison reports nothing to do
      exactly when the new plan asks for nothing the earlier one did not: what
      was taken away (a selector label, multi-hop, BFD, raw directives) stays. */
  lemma UnwrittenExactly(hs: Settings, hg: PeerGroup, ws: Settings, wg: PeerGroup)
    ensures SpecSatisfied(SpecJson(hs, hg), SpecJson(ws, wg)) <==> Covered(hs, hg, ws, wg)
  {
    var hl, wl := hs.routerNodeSelector + hg.selector, ws.routerNodeSelector + wg.selector;
    LabelsJsonSatisfied(hl, wl);
    SelectorSatisfied(hl, wl);
    BgpSatisfied(hs, hg.neighbors, ws, wg.neighbors);
    RouterSatisfied(hs, hg.neighbors, ws, wg.neighbors);
    NeighborsSatisfied(hg.neighbors, hs.bfd, wg.neighbors, ws.bfd);
    RawSatisfied(hg.raw, wg.raw);
    SpecByParts(hs, hg, ws, wg);
  }

  lemma SelectorSatisfied(a: LabelMap, b: LabelMap)
    ensures SpecSatisfied(SelectorJson(a), SelectorJson(b)) <==> SpecSatisfied(LabelsJson(a), LabelsJson(b))
  {
    var have, want := SelectorJson(a), SelectorJson(b);
    assert SpecSatisfied(have, want) ==> SpecSatisfied(Field(have, "matchLabels"), want.fields["matchLabels"]);
  }

  lemma SpecByParts(hs: Settings, hg: PeerGroup, ws: Settings, wg: PeerGroup)
    ensures SpecSatisfied(SpecJson(hs, hg), SpecJson(ws, wg)) <==>
            && SpecSatisfied(SelectorJson(hs.routerNodeSelector + hg.selector),
                             SelectorJson(ws.routerNodeSelector + wg.selector))
            && SpecSatisfied(BgpJson(hs, hg.neighbors), BgpJson(ws, wg.neighbors))
            && (wg.raw != "" ==> hg.raw != "" && SpecSatisfied(RawJson(hg.raw), RawJson(wg.raw)))
  {
    var have := SpecJson(hs, hg);
    SpecReads(hs, hg);
    TwoFieldsSatisfied(have, ws, wg);
    OneMoreField(have, SpecFields(ws, wg), "raw", RawJson(wg.raw));
  }

  lemma SpecReads(settings: Settings, group: PeerGroup)
    ensures var j := SpecJson(settings, group);
            && Field(j, "nodeSelector") == SelectorJson(settings.routerNodeSelector + group.selector)
            && Field(j, "bgp") == BgpJson(settings, group.neighbors)
            && (Field(j, "raw") == if group.raw != "" then RawJson(group.raw) else Null)
            && "raw" !in SpecFields(settings, group)
  {}

  lemma TwoFieldsSatisfied(have: J, settings: Settings, group: PeerGroup)
    requires have.Obj?
    ensures SpecSatisfied(have, Obj(SpecFields(settings, group))) <==>
            && SpecSatisfied(Field(have, "nodeSelector"), SelectorJson(settings.routerNodeSelector + group.selector))
            && SpecSatisfied(Field(have, "bgp"), BgpJson(settings, group.neighbors))
  {
    var want := SpecFields(settings, group);
    assert SpecSatisfied(have, Obj(want)) ==>
        && SpecSatisfied(Field(have, "nodeSelector"), want["nodeSelector"])
        && SpecSatisfied(Field(have, "bgp"), want["bgp"]);
  }

  predicate Sound(j: J) {
    !j.Null? && !HoldsNull(j)
  }

  lemma BgpNoNulls(settings: Settings, ns: seq<Neighbor>)
    ensures Sound(BgpJson(settings, ns))
  {
    forall i | 0 <= i < |ns| ensures !HoldsNull(NeighborJson(ns[i], settings.bfd)) {
      NeighborNoNulls(ns[i], settings.bfd);
    }
    assert Sound(NeighborsJson(ns, settings.bfd));
    assert Sound(RouterJson(settings, ns));
    assert Sound(List([RouterJson(settings, ns)]));
    assert Sound(List([Profile()])) by { assert Sound(Profile()); }
  }

  lemma NoNulls(settings: Settings, group: PeerGroup)
    ensures !HoldsNull(SpecJson(settings, group))
  {
    var labels := settings.routerNodeSelector + group.selector;
    BgpNoNulls(settings, group.neighbors);
    assert Sound(LabelsJson(labels));
    assert Sound(SelectorJson(labels));
    assert Sound(RawJson(group.raw));
    var fields := SpecJson(settings, group).fields;
    forall k | k in fields ensures Sound(fields[k]) {
      assert fields[k] in {SelectorJson(labels), BgpJson(settings, group.neighbors), RawJson(group.raw)};
    }
  }

  lemma NeighborNoNulls(n: Neighbor, bfd: bool)
    ensures !HoldsNull(NeighborJson(n, bfd))
  {
    var receive := NeighborFields(n)["toReceive"];
    assert !HoldsNull(receive.fields["allowed"]);
    assert !HoldsNull(receive);
  }

  /** And defaulting in between makes no difference: what a plan takes away is
      not written. */
  lemma TakenAwayUnwritten(stored: J, hs: Settings, hg: PeerGroup, ws: Settings, wg: PeerGroup)
    requires Defaulted(stored, SpecJson(hs, hg)) && Covered(hs, hg, ws, wg)
    ensures SpecSatisfied(stored, SpecJson(ws, wg))
  {
    UnwrittenExactly(hs, hg, ws, wg);
    DefaultedSatisfies(stored, SpecJson(hs, hg));
    NoNulls(ws, wg);
    TransitiveTo(stored, SpecJson(hs, hg), SpecJson(ws, wg));
  }

  // ------------------------------------------------------------- the rendering

  method RenderNeighbors(ns: seq<Neighbor>, bfd: bool) returns (items: seq<J>)
    ensures List(items) == NeighborsJson(ns, bfd)
  {
    items := [];
    for i := 0 to |ns|
      invariant |items| == i && forall j :: 0 <= j < i ==> items[j] == NeighborJson(ns[j], bfd)
    {
      var n := ns[i];
      var neighbor := map["address" := Str(n.address), "asn" := Int(n.asn), "disableMP" := Bool(true),
                          "toReceive" := Obj(map["allowed" := Obj(map["mode" := Str("all")])])];
      if n.multiHop { neighbor := neighbor["ebgpMultiHop" := Bool(true)]; }
      if bfd { neighbor := neighbor["bfdProfile" := Str("default")]; }
      items := items + [Obj(neighbor)];
    }
  }

  method ToInterfaceMap(m: LabelMap) returns (result: map<string, J>)
    ensures Obj(result) == LabelsJson(m)
  {
    result := map[];
    var left := m.Keys;
    while left != {}
      invariant left <= m.Keys
      invariant result == map k | k in m.Keys - left :: Str(m[k])
    {
      var k :| k in left;
      result := result[k := Str(m[k])];
      left := left - {k};
    }
    assert result == LabelsJson(m).fields;
  }

  method RenderGroup(settings: Settings, group: PeerGroup) returns (spec: J)
    ensures spec == SpecJson(settings, group)
  {
    var nodeSelector := MergeLabels(settings.routerNodeSelector, group.selector);
    var neighbors := RenderNeighbors(group.neighbors, settings.bfd);
    var router := map["asn" := Int(settings.localASN), "neighbors" := List(neighbors)];
    var bgp := map["routers" := List([Obj(router)])];
    if settings.bfd { bgp := bgp["bfdProfiles" := List([Profile()])]; }
    var labels := ToInterfaceMap(nodeSelector);
    var fields := map["nodeSelector" := Obj(map["matchLabels" := Obj(labels)]), "bgp" := Obj(bgp)];
    if group.raw != "" { fields := fields["raw" := RawJson(group.raw)]; }
    return Obj(fields);
  }
}
