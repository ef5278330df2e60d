/** Discovering Route Server endpoints and sorting them into zones. */
module AwsDiscovery {
  import opened Options
  import opened Text
  import opened Sorting
  import opened PlatformTypes
  import opened AwsPlatform

  /** An endpoint as EC2 lists it; a field left out reads as empty. */
  datatype Endpoint = Endpoint(id: string, address: string, subnet: string, server: string)

  datatype Outcome =
    | Discovered(endpointsByAZ: map<string, seq<string>>, groups: seq<PeerGroup>)
    | ServerNotFound(server: string)
    | NoZone(endpoint: Endpoint)
    | CallFailed

  // ------------------------------------------------------------- the endpoints found

  function OfServer(endpoints: seq<Endpoint>, server: string): seq<Endpoint> {
    if endpoints == [] then []
    else
      var e := endpoints[|endpoints| - 1];
      OfServer(endpoints[..|endpoints| - 1], server) + if e.server == server then [e] else []
  }

  /** The endpoints of the configured servers, server by server. */
  function Found(servers: seq<string>, endpoints: seq<Endpoint>): seq<Endpoint> {
    if servers == [] then []
    else Found(servers[..|servers| - 1], endpoints) + OfServer(endpoints, servers[|servers| - 1])
  }

  function ZoneOf(subnets: map<string, string>, e: Endpoint): string {
    if e.subnet in subnets then subnets[e.subnet] else ""
  }

  function InZone(found: seq<Endpoint>, subnets: map<string, string>, az: string): seq<Endpoint> {
    if found == [] then []
    else
      var e := found[|found| - 1];
      InZone(found[..|found| - 1], subnets, az) + if ZoneOf(subnets, e) == az then [e] else []
  }

  function Ids(es: seq<Endpoint>): seq<string> {
    seq(|es|, i requires 0 <= i < |es| => es[i].id)
  }

  function AsNeighbors(es: seq<Endpoint>, asns: map<string, int>): seq<Neighbor> {
    seq(|es|, i requires 0 <= i < |es| =>
      Neighbor(es[i].address, if es[i].server in asns then asns[es[i].server] else 0, false))
  }

  /** The zone has exactly its endpoints, in the order found, if it has any. */
  ghost predicate ZoneIds(found: seq<Endpoint>, subnets: map<string, string>, ids: map<string, seq<string>>,
                          az: string)
  {
    && (az in ids <==> InZone(found, subnets, az) != [])
    && (az in ids ==> ids[az] == Ids(InZone(found, subnets, az)))
  }

  ghost predicate IdsByZone(found: seq<Endpoint>, subnets: map<string, string>, ids: map<string, seq<string>>) {
    forall az :: ZoneIds(found, subnets, ids, az)
  }

  ghost predicate ZoneNeighbors(found: seq<Endpoint>, subnets: map<string, string>, asns: map<string, int>,
                                neighbors: map<string, seq<Neighbor>>, az: string)
  {
    && (az in neighbors <==> InZone(found, subnets, az) != [])
    && (az in neighbors ==> neighbors[az] == AsNeighbors(InZone(found, subnets, az), asns))
  }

  ghost predicate NeighborsByZone(found: seq<Endpoint>, subnets: map<string, string>, asns: map<string, int>,
                                  neighbors: map<string, seq<Neighbor>>)
  {
    forall az :: ZoneNeighbors(found, subnets, asns, neighbors, az)
  }

  ghost predicate SortedIntoZones(found: seq<Endpoint>, subnets: map<string, string>, asns: map<string, int>,
                                  ids: map<string, seq<string>>, neighbors: map<string, seq<Neighbor>>)
  {
    IdsByZone(found, subnets, ids) && NeighborsByZone(found, subnets, asns, neighbors)
  }

  function Under<T>(m: map<string, seq<T>>, az: string): seq<T> {
    if az in m then m[az] else []
  }

  lemma InZoneGrows(found: seq<Endpoint>, subnets: map<string, string>, e: Endpoint, az: string)
    ensures InZone(found + [e], subnets, az)
            == InZone(found, subnets, az) + if ZoneOf(subnets, e) == az then [e] else []
  {
    assert (found + [e])[..|found|] == found;
  }

  lemma OneMoreId(found: seq<Endpoint>, subnets: map<string, string>, ids: map<string, seq<string>>, e: Endpoint)
    requires IdsByZone(found, subnets, ids)
    ensures var az := ZoneOf(subnets, e); IdsByZone(found + [e], subnets, ids[az := Under(ids, az) + [e.id]])
  {
    var z := ZoneOf(subnets, e);
    var more, next := found + [e], ids[z := Under(ids, z) + [e.id]];
    forall az ensures ZoneIds(more, subnets, next, az) {
      assert ZoneIds(found, subnets, ids, az);
      InZoneGrows(found, subnets, e, az);
      var was := InZone(found, subnets, az);
      assert Ids(was + [e]) == Ids(was) + [e.id];
    }
  }

  lemma OneMoreNeighbor(found: seq<Endpoint>, subnets: map<string, string>, asns: map<string, int>,
                        neighbors: map<string, seq<Neighbor>>, e: Endpoint)
    requires NeighborsByZone(found, subnets, asns, neighbors) && e.server in asns
    ensures var az := ZoneOf(subnets, e);
            NeighborsByZone(found + [e], subnets, asns,
                            neighbors[az := Under(neighbors, az) + [Neighbor(e.address, asns[e.server], false)]])
  {
    var z, n := ZoneOf(subnets, e), Neighbor(e.address, asns[e.server], false);
    var more, next := found + [e], neighbors[z := Under(neighbors, z) + [n]];
    forall az ensures ZoneNeighbors(more, subnets, asns, next, az) {
      assert ZoneNeighbors(found, subnets, asns, neighbors, az);
      InZoneGrows(found, subnets, e, az);
      var was := InZone(found, subnets, az);
      assert AsNeighbors(was + [e], asns) == AsNeighbors(was, asns) + [n];
    }
  }

  // ------------------------------------------------------------------------- groups

  /** Strictly ascending zones, each with its neighbours and its selector. */
  ghost predicate GroupedByZone(groups: seq<PeerGroup>, neighborsByAZ: map<string, seq<Neighbor>>) {
    && (forall i, j :: 0 <= i < j < |groups| ==> Less(groups[i].key, groups[j].key))
    && (forall i :: 0 <= i < |groups| ==>
          && groups[i].key in neighborsByAZ
          && groups[i] == PeerGroup(groups[i].key, map["topology.kubernetes.io/zone" := groups[i].key],
                                    neighborsByAZ[groups[i].key], ""))
    && (forall az :: az in neighborsByAZ ==> exists i :: 0 <= i < |groups| && groups[i].key == az)
  }

  method PeerGroupsByAZ(neighborsByAZ: map<string, seq<Neighbor>>) returns (groups: seq<PeerGroup>)
    ensures GroupedByZone(groups, neighborsByAZ)
  {
    var azs: seq<string> := [];
    var left := neighborsByAZ.Keys;
    while left != {}
      invariant left <= neighborsByAZ.Keys && DistinctKeys(azs, Identity)
      invariant forall az :: az in azs <==> az in neighborsByAZ && az !in left
    {
      var az :| az in left;
      azs, left := azs + [az], left - {az};
    }
    ghost var unsorted := azs;
    azs := SortBy(azs, Identity);
    PermutationSameElements(azs, unsorted);
    DistinctPermutation(unsorted, azs, Identity);
    groups := [];
    for i := 0 to |azs|
      invariant |groups| == i
      invariant forall k :: 0 <= k < i ==>
                  azs[k] in neighborsByAZ
                  && groups[k] == PeerGroup(azs[k], map["topology.kubernetes.io/zone" := azs[k]],
                                            neighborsByAZ[azs[k]], "")
    {
      assert azs[i] in azs;
      groups := groups + [PeerGroup(azs[i], map["topology.kubernetes.io/zone" := azs[i]], neighborsByAZ[azs[i]], "")];
    }
    forall i, j | 0 <= i < j < |groups| ensures Less(groups[i].key, groups[j].key) {
      LessTotal(azs[i], azs[j]);
      assert Identity(azs[i]) != Identity(azs[j]) && !Less(Identity(azs[j]), Identity(azs[i]));
    }
    forall az | az in neighborsByAZ ensures exists i :: 0 <= i < |groups| && groups[i].key == az {
      assert az in azs;
      var i :| 0 <= i < |azs| && azs[i] == az;
      assert groups[i].key == az;
    }
  }

  function GroupKey(g: PeerGroup): string {
    g.key
  }

  /** The groups, and so the names of the objects made from them, depend on the
      neighbours alone and not on the order a map gives its keys in. */
  lemma GroupsCanonical(a: seq<PeerGroup>, b: seq<PeerGroup>, neighborsByAZ: map<string, seq<Neighbor>>)
    requires GroupedByZone(a, neighborsByAZ) && GroupedByZone(b, neighborsByAZ)
    ensures a == b
  {
    AscendingSet(a, b, neighborsByAZ);
    AscendingSet(b, a, neighborsByAZ);
    OncePerGroup(a);
    OncePerGroup(b);
    forall g ensures multiset(a)[g] == multiset(b)[g] {
      assert g in a <==> g in b;
      assert g in a <==> multiset(a)[g] > 0;
      assert g in b <==> multiset(b)[g] > 0;
    }
    Ascending(a);
    Ascending(b);
    assert multiset(a) == multiset(b);
    SortedUnique(a, b, GroupKey);
  }

  lemma AscendingSet(a: seq<PeerGroup>, b: seq<PeerGroup>, neighborsByAZ: map<string, seq<Neighbor>>)
    requires GroupedByZone(a, neighborsByAZ) && GroupedByZone(b, neighborsByAZ)
    ensures forall g :: g in a ==> g in b
  {
    forall g | g in a ensures g in b {
      var i :| 0 <= i < |a| && a[i] == g;
      var j :| 0 <= j < |b| && b[j].key == g.key;
      assert b[j] == g;
    }
  }

  lemma Ascending(a: seq<PeerGroup>)
    requires forall i, j :: 0 <= i < j < |a| ==> Less(a[i].key, a[j].key)
    ensures SortedBy(a, GroupKey) && DistinctKeys(a, GroupKey)
  {
    forall i, j | 0 <= i < j < |a| ensures !Less(a[j].key, a[i].key) && a[i].key != a[j].key {
      LessIrreflexive(a[i].key);
      if Less(a[j].key, a[i].key) { LessTransitive(a[i].key, a[j].key, a[i].key); }
    }
  }

  lemma OncePerGroup(a: seq<PeerGroup>)
    requires forall i, j :: 0 <= i < j < |a| ==> Less(a[i].key, a[j].key)
    ensures forall g :: g in a ==> multiset(a)[g] == 1
  {
    Ascending(a);
    forall g | g in a ensures multiset(a)[g] == 1 {
      var m :| 0 <= m < |a| && a[m] == g;
      OnceInMultiset(a, m, GroupKey);
    }
  }

  // ---------------------------------------------------------------------- discovery

  /** The endpoints of one server, added to their zones one by one; None, or the
      endpoint whose subnet has no zone. */
  method AddEndpoints(of: seq<Endpoint>, asn: int, subnets: map<string, string>, ids0: map<string, seq<string>>,
                      neighbors0: map<string, seq<Neighbor>>, ghost before: seq<Endpoint>, ghost asns: map<string, int>)
    returns (bad: Option<Endpoint>, ids: map<string, seq<string>>, neighbors: map<string, seq<Neighbor>>)
    requires SortedIntoZones(before, subnets, asns, ids0, neighbors0)
    requires forall e :: e in of ==> e.server in asns && asns[e.server] == asn
    ensures bad.None? ==> SortedIntoZones(before + of, subnets, asns, ids, neighbors)
                          && forall e :: e in of ==> ZoneOf(subnets, e) != ""
    ensures bad.Some? ==> bad.value in of && ZoneOf(subnets, bad.value) == ""
  {
    ids, neighbors := ids0, neighbors0;
    assert before + of[..0] == before;
    for i := 0 to |of|
      invariant SortedIntoZones(before + of[..i], subnets, asns, ids, neighbors)
      invariant forall k :: 0 <= k < i ==> ZoneOf(subnets, of[k]) != ""
    {
      var ep := of[i];
      var az := ZoneOf(subnets, ep);
      if az == "" { return Some(ep), ids, neighbors; }
      OneMoreId(before + of[..i], subnets, ids, ep);
      OneMoreNeighbor(before + of[..i], subnets, asns, neighbors, ep);
      assert before + of[..i + 1] == (before + of[..i]) + [ep];
      neighbors := neighbors[az := Under(neighbors, az) + [Neighbor(ep.address, asn, false)]];
      ids := ids[az := Under(ids, az) + [ep.id]];
    }
    assert of[..|of|] == of;
    return None, ids, neighbors;
  }

  /** asns holds the servers EC2 knows. */
  method DiscoverEndpoints(servers: seq<string>, asns: map<string, int>, endpoints: seq<Endpoint>,
                           subnets: map<string, string>)
    returns (outcome: Outcome, ghost neighborsByAZ: map<string, seq<Neighbor>>)
    ensures outcome.Discovered? ==>
              && (forall s :: s in servers ==> s in asns)
              && (forall e :: e in Found(servers, endpoints) ==> ZoneOf(subnets, e) != "")
              && SortedIntoZones(Found(servers, endpoints), subnets, asns, outcome.endpointsByAZ, neighborsByAZ)
              && GroupedByZone(outcome.groups, neighborsByAZ)
    ensures outcome.ServerNotFound? ==> outcome.server in servers && outcome.server !in asns
    ensures outcome.NoZone? ==> outcome.endpoint in Found(servers, endpoints) && ZoneOf(subnets, outcome.endpoint) == ""
  {
    var neighbors: map<string, seq<Neighbor>> := map[];
    var ids: map<string, seq<string>> := map[];
    neighborsByAZ := neighbors;
    for r := 0 to |servers|
      invariant SortedIntoZones(Found(servers[..r], endpoints), subnets, asns, ids, neighbors)
      invariant forall i :: 0 <= i < r ==> servers[i] in asns
      invariant forall e :: e in Found(servers[..r], endpoints) ==> ZoneOf(subnets, e) != ""
    {
      var server := servers[r];
      if * { return CallFailed, neighborsByAZ; }
      if server !in asns { return ServerNotFound(server), neighborsByAZ; }
      var of := ListEndpoints(endpoints, server);
      OfServerMembers(endpoints, server);
      assert servers[..r + 1][..r] == servers[..r];
      FoundGrows(servers, endpoints, r + 1);
      var bad;
      bad, ids, neighbors := AddEndpoints(of, asns[server], subnets, ids, neighbors,
                                          Found(servers[..r], endpoints), asns);
      if bad.Some? { return NoZone(bad.value), neighborsByAZ; }
    }
    assert servers[..|servers|] == servers;
    neighborsByAZ := neighbors;
    var groups := PeerGroupsByAZ(neighbors);
    return Discovered(ids, groups), neighborsByAZ;
  }

  method ListEndpoints(endpoints: seq<Endpoint>, server: string) returns (filtered: seq<Endpoint>)
    ensures filtered == OfServer(endpoints, server)
  {
    filtered := [];
    for i := 0 to |endpoints|
      invariant filtered == OfServer(endpoints[..i], server)
    {
      assert endpoints[..i + 1][..i] == endpoints[..i];
      if endpoints[i].server == server { filtered := filtered + [endpoints[i]]; }
    }
    assert endpoints[..|endpoints|] == endpoints;
  }

  lemma {:induction false} OfServerMembers(endpoints: seq<Endpoint>, server: string)
    ensures forall e :: e in OfServer(endpoints, server) <==> e in endpoints && e.server == server
  {
    if endpoints != [] {
      OfServerMembers(endpoints[..|endpoints| - 1], server);
      assert endpoints == endpoints[..|endpoints| - 1] + [endpoints[|endpoints| - 1]];
    }
  }

  lemma {:induction false} FoundGrows(servers: seq<string>, endpoints: seq<Endpoint>, n: nat)
    requires n <= |servers|
    ensures forall e :: e in Found(servers[..n], endpoints) ==> e in Found(servers, endpoints)
    decreases |servers|
  {
    if n < |servers| {
      assert servers[..|servers| - 1][..n] == servers[..n];
      FoundGrows(servers[..|servers| - 1], endpoints, n);
    } else {
      assert servers[..n] == servers;
    }
  }

  // ------------------------------------------------------- one zone for each endpoint

  function EndpointId(e: Endpoint): string {
    e.id
  }

  lemma {:induction false} InZoneFacts(found: seq<Endpoint>, subnets: map<string, string>, az: string)
    ensures forall e :: e in InZone(found, subnets, az) <==> e in found && ZoneOf(subnets, e) == az
    ensures DistinctKeys(found, EndpointId) ==> DistinctKeys(InZone(found, subnets, az), EndpointId)
  {
    if found != [] {
      var most, e := found[..|found| - 1], found[|found| - 1];
      InZoneFacts(most, subnets, az);
      assert found == most + [e];
      forall x | x in most && DistinctKeys(found, EndpointId) ensures x.id != e.id {
        var i :| 0 <= i < |most| && most[i] == x;
        assert EndpointId(found[i]) != EndpointId(found[|found| - 1]);
      }
    }
  }

  lemma {:induction false} FoundMembers(servers: seq<string>, endpoints: seq<Endpoint>)
    ensures forall e :: e in Found(servers, endpoints) <==> e in endpoints && e.server in servers
  {
    if servers != [] {
      var most, last := servers[..|servers| - 1], servers[|servers| - 1];
      assert servers == most + [last];
      FoundMembers(most, endpoints);
      OfServerMembers(endpoints, last);
    }
  }

  /** What discovery makes of an endpoint of a configured server: it is filed under the
      zone of its subnet, and is there a neighbour, at its address and with the ASN
      of its server, of the group that selects the nodes of the zone. */
  lemma DiscoveryReads(servers: seq<string>, endpoints: seq<Endpoint>, subnets: map<string, string>,
                       asns: map<string, int>, ids: map<string, seq<string>>,
                       neighborsByAZ: map<string, seq<Neighbor>>, groups: seq<PeerGroup>, e: Endpoint)
    requires SortedIntoZones(Found(servers, endpoints), subnets, asns, ids, neighborsByAZ)
    requires GroupedByZone(groups, neighborsByAZ)
    requires forall x :: x in Found(servers, endpoints) ==> ZoneOf(subnets, x) != ""
    requires e in endpoints && e.server in servers && e.server in asns
    ensures e.subnet in subnets && var az := subnets[e.subnet];
            && az in ids && e.id in ids[az]
            && exists g :: g in groups && g.key == az && g.selector == map["topology.kubernetes.io/zone" := az]
                           && g.raw == "" && Neighbor(e.address, asns[e.server], false) in g.neighbors
  {
    FoundMembers(servers, endpoints);
    var found, az := Found(servers, endpoints), ZoneOf(subnets, e);
    assert ZoneOf(subnets, e) != "";
    InZoneFacts(found, subnets, az);
    var es := InZone(found, subnets, az);
    var k :| 0 <= k < |es| && es[k] == e;
    assert ZoneIds(found, subnets, ids, az) && Ids(es)[k] == e.id;
    assert ZoneNeighbors(found, subnets, asns, neighborsByAZ, az);
    assert AsNeighbors(es, asns)[k] == Neighbor(e.address, asns[e.server], false);
    var i :| 0 <= i < |groups| && groups[i].key == az;
    assert groups[i] in groups;
  }

  /** And there is nothing else: every neighbour of every group is such an endpoint. */
  lemma DiscoveryOnly(servers: seq<string>, endpoints: seq<Endpoint>, subnets: map<string, string>,
                      asns: map<string, int>, ids: map<string, seq<string>>,
                      neighborsByAZ: map<string, seq<Neighbor>>, groups: seq<PeerGroup>, g: PeerGroup, n: Neighbor)
    requires SortedIntoZones(Found(servers, endpoints), subnets, asns, ids, neighborsByAZ)
    requires GroupedByZone(groups, neighborsByAZ) && g in groups && n in g.neighbors
    requires forall s :: s in servers ==> s in asns
    requires forall x :: x in Found(servers, endpoints) ==> ZoneOf(subnets, x) != ""
    ensures exists e :: e in endpoints && e.server in servers && e.subnet in subnets && subnets[e.subnet] == g.key
                        && n == Neighbor(e.address, asns[e.server], false)
  {
    FoundMembers(servers, endpoints);
    var found := Found(servers, endpoints);
    var i :| 0 <= i < |groups| && groups[i] == g;
    assert ZoneNeighbors(found, subnets, asns, neighborsByAZ, g.key);
    InZoneFacts(found, subnets, g.key);
    var es := InZone(found, subnets, g.key);
    var k :| 0 <= k < |g.neighbors| && g.neighbors[k] == n;
    assert n == AsNeighbors(es, asns)[k] && es[k] in es;
  }

  /** Endpoints with distinct identifiers end up in one zone each, once. */
  lemma DiscoveryIsWellZoned(found: seq<Endpoint>, subnets: map<string, string>, asns: map<string, int>,
                             endpointsByAZ: map<string, seq<string>>, neighborsByAZ: map<string, seq<Neighbor>>)
    requires SortedIntoZones(found, subnets, asns, endpointsByAZ, neighborsByAZ) && DistinctKeys(found, EndpointId)
    ensures WellZoned(endpointsByAZ)
  {
    forall az, i, bz, j | az in endpointsByAZ && bz in endpointsByAZ
                          && 0 <= i < |endpointsByAZ[az]| && 0 <= j < |endpointsByAZ[bz]|
                          && endpointsByAZ[az][i] == endpointsByAZ[bz][j]
      ensures az == bz && i == j
    {
      assert ZoneIds(found, subnets, endpointsByAZ, az) && ZoneIds(found, subnets, endpointsByAZ, bz);
      InZoneFacts(found, subnets, az);
      InZoneFacts(found, subnets, bz);
      SameIdSameEndpoint(found, InZone(found, subnets, az)[i], InZone(found, subnets, bz)[j]);
      SameIdSamePlace(InZone(found, subnets, az), i, j);
    }
  }

  lemma SameIdSameEndpoint(found: seq<Endpoint>, a: Endpoint, b: Endpoint)
    requires DistinctKeys(found, EndpointId) && a in found && b in found && a.id == b.id
    ensures a == b
  {
    var m :| 0 <= m < |found| && found[m] == a;
    var n :| 0 <= n < |found| && found[n] == b;
    assert EndpointId(found[m]) == EndpointId(found[n]);
  }

  lemma SameIdSamePlace(es: seq<Endpoint>, i: nat, j: nat)
    requires DistinctKeys(es, EndpointId) && i < |es| && j < |es| && es[i].id == es[j].id
    ensures i == j
  {
    assert EndpointId(es[i]) == EndpointId(es[j]);
  }
}
