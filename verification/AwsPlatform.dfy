/** The AWS platform: Route Server peers reconciled endpoint by endpoint. */
module AwsPlatform {
  import opened Options
  import opened AwsPeers
  import opened AwsEndpoint
  import opened AwsPass
  import opened Ec2Api
  import opened PlatformTypes

  type Zones = map<string, set<string>>

  function IPsIn(nodesByAZ: Zones, az: string): set<string> {
    if az in nodesByAZ then nodesByAZ[az] else {}
  }

  /** The addresses wanted in each zone. */
  function NodesByAZ(nodes: seq<RouterNode>): Zones {
    map az | az in ZoneNames(nodes) :: ZoneIPs(nodes, az)
  }

  function ZoneNames(nodes: seq<RouterNode>): set<string> {
    set n | n in nodes :: n.zone
  }

  function ZoneIPs(nodes: seq<RouterNode>, az: string): set<string> {
    set n | n in nodes && n.zone == az :: n.privateIP
  }

  /** No endpoint is listed twice, in one zone or in two. */
  ghost predicate WellZoned(endpointsByAZ: map<string, seq<string>>) {
    forall az, i, bz, j | az in endpointsByAZ && bz in endpointsByAZ
                          && 0 <= i < |endpointsByAZ[az]| && 0 <= j < |endpointsByAZ[bz]| ::
      endpointsByAZ[az][i] == endpointsByAZ[bz][j] ==> az == bz && i == j
  }

  ghost function Endpoints(endpointsByAZ: map<string, seq<string>>): set<string> {
    set az, e | az in endpointsByAZ && e in endpointsByAZ[az] :: e
  }

  /** Nothing but live managed peers of the given endpoints has gone. */
  ghost predicate CleanedAt(before: seq<Peer>, after: seq<Peer>, endpoints: set<string>, cluster: string) {
    && CleanupStep(before, after, cluster)
    && forall i :: 0 <= i < |before| && before[i].endpoint !in endpoints ==> after[i] == before[i]
  }

  /** No managed peer that can be named is left alive on the endpoint. */
  ghost predicate NoneLeft(ps: seq<Peer>, e: string, cluster: string) {
    forall i :: 0 <= i < |ps| ==> !(ps[i].endpoint == e && HasTag(ps[i], cluster) && ps[i].id.Some? && Alive(ps[i]))
  }

  lemma CleanedTwice(a: seq<Peer>, b: seq<Peer>, c: seq<Peer>, endpoints: set<string>, e: string, cluster: string)
    requires CleanedAt(a, b, endpoints, cluster) && CleanedAt(b, c, {e}, cluster) && e in endpoints
    ensures CleanedAt(a, c, endpoints, cluster)
  {}

  lemma StaysClean(a: seq<Peer>, b: seq<Peer>, endpoints: set<string>, e: string, cluster: string)
    requires CleanedAt(a, b, endpoints, cluster) && NoneLeft(a, e, cluster)
    ensures NoneLeft(b, e, cluster)
  {}

  /** The first k of the managed peers are dealt with, the rest as they were. */
  ghost predicate CleanedUpTo(before: seq<Peer>, now: seq<Peer>, at: seq<nat>, k: nat) {
    && |now| == |before| && k <= |at| && (forall j :: 0 <= j < |at| ==> at[j] < |before|)
    && (forall j :: k <= j < |at| ==> now[at[j]] == before[at[j]])
    && (forall j :: 0 <= j < k && before[at[j]].id.Some? ==> !Alive(now[at[j]]))
  }

  lemma NoneClean(ps: seq<Peer>, at: seq<nat>)
    requires forall j :: 0 <= j < |at| ==> at[j] < |ps|
    ensures CleanedUpTo(ps, ps, at, 0)
  {}

  lemma NextToClean(before: seq<Peer>, now: seq<Peer>, at: seq<nat>, k: nat, list: seq<Peer>)
    requires CleanedUpTo(before, now, at, k) && k < |at| == |list|
    requires forall j :: 0 <= j < |at| ==> before[at[j]] == list[j]
    ensures at[k] < |now| == |before| && now[at[k]] == before[at[k]] == list[k]
  {}

  lemma OneMoreClean(before: seq<Peer>, was: seq<Peer>, now: seq<Peer>, at: seq<nat>, k: nat)
    requires CleanedUpTo(before, was, at, k) && k < |at| && |now| == |was|
    requires forall i, j :: 0 <= i < j < |at| ==> at[i] < at[j]
    requires forall i :: 0 <= i < |now| && i != at[k] ==> now[i] == was[i]
    requires before[at[k]].id.Some? ==> !Alive(now[at[k]])
    ensures CleanedUpTo(before, now, at, k + 1)
  {
    forall j | 0 <= j < |at| && j != k ensures now[at[j]] == was[at[j]] {
      assert j < k ==> at[j] < at[k];
      assert k < j ==> at[k] < at[j];
    }
  }

  lemma NothingCleaned(ps: seq<Peer>, e: string, cluster: string)
    ensures CleanedAt(ps, ps, {e}, cluster)
  {}

  lemma AllClean(before: seq<Peer>, after: seq<Peer>, e: string, cluster: string, at: seq<nat>)
    requires CleanedAt(before, after, {e}, cluster) && CleanedUpTo(before, after, at, |at|)
    requires forall k :: k in at <==> 0 <= k < |before| && before[k].endpoint == e && HasTag(before[k], cluster)
    ensures NoneLeft(after, e, cluster)
  {
    forall i | 0 <= i < |after| && after[i].endpoint == e && HasTag(after[i], cluster) && after[i].id.Some?
      ensures !Alive(after[i])
    {
      assert i in at;
      var j :| 0 <= j < |at| && at[j] == i;
    }
  }

  /** Where the managed peers of an endpoint stand in the list. */
  ghost function ManagedIndices(ps: seq<Peer>, e: string, cluster: string): seq<nat> {
    if ps == [] then []
    else
      var n := |ps| - 1;
      ManagedIndices(ps[..n], e, cluster) + if ps[n].endpoint == e && HasTag(ps[n], cluster) then [n] else []
  }

  lemma {:induction false} ManagedStand(ps: seq<Peer>, e: string, cluster: string)
    ensures var at, list := ManagedIndices(ps, e, cluster), Managed(ps, e, cluster);
            && |at| == |list|
            && (forall i :: 0 <= i < |at| ==> at[i] < |ps| && ps[at[i]] == list[i])
            && (forall i, j :: 0 <= i < j < |at| ==> at[i] < at[j])
  {
    if ps != [] { ManagedStand(ps[..|ps| - 1], e, cluster); }
  }

  lemma {:induction false} ManagedStandAll(ps: seq<Peer>, e: string, cluster: string)
    ensures forall k :: k in ManagedIndices(ps, e, cluster) <==>
                        0 <= k < |ps| && ps[k].endpoint == e && HasTag(ps[k], cluster)
  {
    if ps != [] { ManagedStandAll(ps[..|ps| - 1], e, cluster); }
  }

  /** What the gauge counts in a listing. */
  function CountIn(peers: seq<Peer>, ips: set<string>): nat {
    if peers == [] then 0
    else
      var p := peers[|peers| - 1];
      CountIn(peers[..|peers| - 1], ips)
      + if p.address.Some? && p.state != Deleted && p.address.value in ips then 1 else 0
  }

  lemma {:induction false} CountListed(ps: seq<Peer>, w: Wanted)
    ensures CountIn(Managed(ps, w.endpoint, w.cluster), w.ips) == CountAt(ps, w)
  {
    if ps != [] {
      var most, p := ps[..|ps| - 1], ps[|ps| - 1];
      CountListed(most, w);
      var list := Managed(most, w.endpoint, w.cluster);
      if p.endpoint == w.endpoint && HasTag(p, w.cluster) {
        assert (list + [p])[..|list|] == list;
        assert Managed(ps, w.endpoint, w.cluster) == list + [p];
      } else {
        assert Managed(ps, w.endpoint, w.cluster) == list;
      }
    }
  }

  lemma OneMoreWant(ps: seq<Peer>, ws: seq<Wanted>, w: Wanted)
    ensures CountAll(ps, ws + [w]) == CountAll(ps, ws) + CountAt(ps, w)
  {
    assert (ws + [w])[..|ws|] == ws;
  }

  function Read(m: map<string, nat>, ip: string): Option<nat> {
    if ip in m then Some(m[ip]) else None
  }

  function AdoptableId(ps: seq<Peer>, e: string, ip: string): Option<nat> {
    var a := LastAdoptable(ps, e, ip);
    if a >= 0 then ps[a].id else None
  }

  lemma OneMoreDeleting(list: seq<Peer>, p: Peer)
    ensures DeletingIds(list + [p])
            == DeletingIds(list) + if Whole(p) && p.state == Deleting then {p.id.value} else {}
  {}

  /** What the two indices of managed peers say about an address. */
  lemma HeldBy(ps: seq<Peer>, w: Wanted, ip: string)
    requires UniqueIds(ps)
    ensures var list, k := Managed(ps, w.endpoint, w.cluster), LastHolder(ps, w.endpoint, w.cluster, ip);
            var m := ManagedMap(list);
            && (ip in m <==> k >= 0)
            && (ip in m ==> ps[k].id == Some(m[ip]) && (m[ip] in DeletingIds(list) <==> ps[k].state == Deleting))
  {
    ManagedMapIs(ps, w.endpoint, w.cluster, ip);
    var k := LastHolder(ps, w.endpoint, w.cluster, ip);
    if k >= 0 { DeletingReads(ps, w.endpoint, w.cluster, k); }
  }

  lemma AdoptableRead(before: seq<Peer>, middle: seq<Peer>, w: Wanted, todo: set<string>, managed: set<string>)
    requires Progress(before, middle, w, todo) && |middle| == |before| && todo == w.ips - managed
    ensures forall ip :: ip in w.ips && ip !in managed ==>
              Read(AdoptMap(OnEndpoint(middle, w.endpoint), managed), ip) == AdoptableId(before, w.endpoint, ip)
  {
    ProgressFrame(before, middle, w, todo);
    forall ip | ip in w.ips && ip !in managed
      ensures Read(AdoptMap(OnEndpoint(middle, w.endpoint), managed), ip) == AdoptableId(before, w.endpoint, ip)
    {
      AdoptMapIs(middle, w.endpoint, managed, ip);
      AdoptableSame(before, middle, w.endpoint, ip);
    }
  }

  lemma GroupedSoFar(nodes: seq<RouterNode>, n: RouterNode)
    ensures NodesByAZ(nodes + [n]) == NodesByAZ(nodes)[n.zone := IPsIn(NodesByAZ(nodes), n.zone) + {n.privateIP}]
  {
    var more := nodes + [n];
    assert ZoneNames(more) == ZoneNames(nodes) + {n.zone};
    assert ZoneIPs(more, n.zone) == ZoneIPs(nodes, n.zone) + {n.privateIP};
    forall az | az in ZoneNames(nodes) && az != n.zone ensures ZoneIPs(more, az) == ZoneIPs(nodes, az) {}
    if n.zone !in ZoneNames(nodes) { assert ZoneIPs(nodes, n.zone) == {}; }
  }

  ghost predicate SafelyExtends(a: seq<Call>, b: seq<Call>, cluster: string) {
    a <= b && Safe(b[|a|..], cluster)
  }

  lemma SafeNothing(a: seq<Call>, cluster: string)
    ensures SafelyExtends(a, a, cluster)
  {}

  lemma SafeAppend(a: seq<Call>, b: seq<Call>, c: seq<Call>, cluster: string)
    requires SafelyExtends(a, b, cluster) && SafelyExtends(b, c, cluster)
    ensures SafelyExtends(a, c, cluster)
  {
    assert c[|a|..] == b[|a|..] + c[|b|..];
  }

  function WithTag(list: seq<Peer>, cluster: string): seq<Peer> {
    if list == [] then []
    else
      var p := list[|list| - 1];
      WithTag(list[..|list| - 1], cluster) + if HasTag(p, cluster) then [p] else []
  }

  lemma {:induction false} TagOfEndpoint(ps: seq<Peer>, e: string, cluster: string)
    ensures WithTag(OnEndpoint(ps, e), cluster) == Managed(ps, e, cluster)
  {
    if ps != [] {
      var most, p := ps[..|ps| - 1], ps[|ps| - 1];
      TagOfEndpoint(most, e, cluster);
      var list := OnEndpoint(most, e);
      if p.endpoint == e {
        assert (list + [p])[..|list|] == list;
        assert OnEndpoint(ps, e) == list + [p];
      } else {
        assert OnEndpoint(ps, e) == list;
      }
    }
  }

  class Platform {
    const ec2: Ec2
    const cluster: string
    const asn: int
    const bfd: bool
    var endpointsByAZ: map<string, seq<string>>

    constructor (ec2: Ec2, cluster: string, asn: int, bfd: bool, endpoints: map<string, seq<string>>)
      ensures this.ec2 == ec2 && this.cluster == cluster && this.asn == asn && this.bfd == bfd
      ensures endpointsByAZ == endpoints
    {
      this.ec2, this.cluster, this.asn, this.bfd, endpointsByAZ := ec2, cluster, asn, bfd, endpoints;
    }

    function Want(e: string, ips: set<string>): Wanted {
      Wanted(e, cluster, ips, asn, bfd)
    }

    // ----------------------------------------------------------------- listing

    method ListAllPeers(e: string) returns (ok: bool, list: seq<Peer>)
      ensures ok ==> list == OnEndpoint(ec2.peers, e)
    {
      list := [];
      if * { return false, list; }
      for i := 0 to |ec2.peers|
        invariant list == OnEndpoint(ec2.peers[..i], e)
      {
        assert ec2.peers[..i + 1][..i] == ec2.peers[..i];
        if ec2.peers[i].endpoint == e { list := list + [ec2.peers[i]]; }
      }
      assert ec2.peers[..|ec2.peers|] == ec2.peers;
      return true, list;
    }

    method ListManagedPeers(e: string) returns (ok: bool, filtered: seq<Peer>)
      ensures ok ==> filtered == Managed(ec2.peers, e, cluster)
    {
      filtered := [];
      var listed, all := ListAllPeers(e);
      if !listed { return false, filtered; }
      for i := 0 to |all|
        invariant filtered == WithTag(all[..i], cluster)
      {
        assert all[..i + 1][..i] == all[..i];
        if HasTag(all[i], cluster) { filtered := filtered + [all[i]]; }
      }
      assert all[..|all|] == all;
      TagOfEndpoint(ec2.peers, e, cluster);
      return true, filtered;
    }

    // ----------------------------------------------------------- one endpoint

    method IndexManaged(list: seq<Peer>) returns (managedIPs: map<string, nat>, deleting: set<nat>)
      ensures managedIPs == ManagedMap(list) && deleting == DeletingIds(list)
    {
      managedIPs, deleting := map[], {};
      for i := 0 to |list|
        invariant managedIPs == ManagedMap(list[..i]) && deleting == DeletingIds(list[..i])
      {
        assert list[..i + 1][..i] == list[..i];
        var peer := list[i];
        OneMoreDeleting(list[..i], peer);
        assert list[..i + 1] == list[..i] + [peer];
        if peer.address.None? || peer.id.None? { continue; }
        if peer.state == Deleted { continue; }
        managedIPs := managedIPs[peer.address.value := peer.id.value];
        if peer.state == Deleting { deleting := deleting + {peer.id.value}; }
      }
      assert list[..|list|] == list;
    }

    method IndexAdoptable(list: seq<Peer>, managedIPs: map<string, nat>) returns (unmanagedIPs: map<string, nat>)
      ensures unmanagedIPs == AdoptMap(list, managedIPs.Keys)
    {
      unmanagedIPs := map[];
      for i := 0 to |list|
        invariant unmanagedIPs == AdoptMap(list[..i], managedIPs.Keys)
      {
        assert list[..i + 1][..i] == list[..i];
        var peer := list[i];
        if peer.address.None? || peer.id.None? { continue; }
        if peer.state == Deleting || peer.state == Deleted { continue; }
        if peer.address.value !in managedIPs {
          unmanagedIPs := unmanagedIPs[peer.address.value := peer.id.value];
        }
      }
      assert list[..|list|] == list;
    }

    /** What is known after part of the work on an endpoint, with `todo` the
        addresses not dealt with yet. */
    twostate predicate Worked(w: Wanted, todo: set<string>)
      reads ec2
    {
      && ec2.Valid() && ec2.refusals == old(ec2.refusals)
      && Progress(old(ec2.peers), ec2.peers, w, todo)
      && SafelyExtends(old(ec2.calls), ec2.calls, cluster)
      && (Quiet(old(ec2.peers), w) ==> ec2.calls == old(ec2.calls))
    }

    /** One held address: its holder is deleted unless the address is wanted or
        the holder is on its way out already. */
    method Prune(w: Wanted, ip: string, peerID: nat, isDeleting: bool, ghost before: seq<Peer>,
                 ghost todo: set<string>, ghost quiet: bool, ghost log: seq<Call>)
      returns (ok: bool)
      requires ec2.Valid() && w.cluster == cluster && (quiet ==> Quiet(before, w)) && |ec2.peers| == |before|
      requires Progress(before, ec2.peers, w, todo) && ip in todo
      requires var k := LastHolder(before, w.endpoint, cluster, ip);
               k >= 0 && before[k].id == Some(peerID) && (isDeleting <==> before[k].state == Deleting)
      requires SafelyExtends(log, ec2.calls, cluster)
      modifies ec2
      ensures ec2.Valid() && ec2.refusals == old(ec2.refusals) && |ec2.peers| == |before|
      ensures Progress(before, ec2.peers, w, todo - {ip}) || (!ok && Progress(before, ec2.peers, w, todo))
      ensures SafelyExtends(log, ec2.calls, cluster)
      ensures quiet ==> ec2.calls == old(ec2.calls)
    {
      ghost var k := LastHolder(before, w.endpoint, cluster, ip);
      ghost var now := ec2.peers;
      if ip in w.ips || isDeleting {
        NothingToTreat(before, now, w, todo, ip);
        return true;
      }
      assert now[k] == before[k];
      assert Treated(before, w, k) == before[k].(state := Deleting);
      ok := ec2.DeletePeer(peerID, k);
      SafeAppend(log, old(ec2.calls), ec2.calls, cluster);
      if ok || ec2.peers != now { TreatOne(before, now, ec2.peers, w, todo, ip); }
    }

    /** Stale holders are deleted, whatever the order the map gives them in. */
    method DeleteStale(w: Wanted, managedIPs: map<string, nat>, deleting: set<nat>, ghost before: seq<Peer>,
                       ghost quiet: bool)
      returns (ok: bool, ghost todo: set<string>)
      requires ec2.Valid() && w.cluster == cluster && (quiet ==> Quiet(before, w)) && |ec2.peers| == |before|
      requires Progress(before, ec2.peers, w, managedIPs.Keys + w.ips)
      requires UniqueIds(before) && managedIPs == ManagedMap(Managed(before, w.endpoint, cluster))
      requires deleting == DeletingIds(Managed(before, w.endpoint, cluster))
      modifies ec2
      ensures ec2.Valid() && ec2.refusals == old(ec2.refusals) && |ec2.peers| == |before|
      ensures Progress(before, ec2.peers, w, todo)
      ensures SafelyExtends(old(ec2.calls), ec2.calls, cluster)
      ensures quiet ==> ec2.calls == old(ec2.calls)
      ensures ok ==> todo == w.ips - managedIPs.Keys
    {
      hide Progress, Quiet, ManagedMap, Managed, DeletingIds, LastHolder;
      var left := managedIPs.Keys;
      todo := managedIPs.Keys + w.ips;
      while left != {}
        invariant left <= managedIPs.Keys && todo == left + (w.ips - managedIPs.Keys)
        invariant ec2.Valid() && ec2.refusals == old(ec2.refusals) && |ec2.peers| == |before|
        invariant Progress(before, ec2.peers, w, todo)
        invariant SafelyExtends(old(ec2.calls), ec2.calls, cluster)
        invariant quiet ==> ec2.calls == old(ec2.calls)
      {
        var ip :| ip in left;
        var peerID := managedIPs[ip];
        HeldBy(before, w, ip);
        var done := Prune(w, ip, peerID, peerID in deleting, before, todo, quiet, old(ec2.calls));
        if !done {
          if !Progress(before, ec2.peers, w, todo) { todo := todo - {ip}; }
          return false, todo;
        }
        left := left - {ip};
        todo := todo - {ip};
      }
      return true, todo;
    }

    /** One wanted address: if nobody holds it an adoptable peer is tagged, and
        only where there is none is one created. */
    method Provide(w: Wanted, ip: string, held: bool, adoptable: Option<nat>, ghost before: seq<Peer>,
                   ghost todo: set<string>, ghost quiet: bool, ghost log: seq<Call>)
      returns (ok: bool)
      requires ec2.Valid() && w.cluster == cluster && (quiet ==> Quiet(before, w))
      requires Progress(before, ec2.peers, w, todo) && ip in w.ips && (ip in todo <==> !held)
      requires held <==> LastHolder(before, w.endpoint, cluster, ip) >= 0
      requires var a := LastAdoptable(before, w.endpoint, ip);
               !held ==> adoptable == if a >= 0 then before[a].id else None
      requires SafelyExtends(log, ec2.calls, cluster)
      modifies ec2
      ensures ec2.Valid() && ec2.refusals == old(ec2.refusals)
      ensures Progress(before, ec2.peers, w, todo - {ip}) || (!ok && Progress(before, ec2.peers, w, todo))
      ensures SafelyExtends(log, ec2.calls, cluster)
      ensures quiet ==> ec2.calls == old(ec2.calls)
    {
      if held {
        assert todo - {ip} == todo;
        return true;
      }
      ghost var a := LastAdoptable(before, w.endpoint, ip);
      ghost var now := ec2.peers;
      if adoptable.Some? {
        assert now[a] == before[a];
        assert Treated(before, w, a) == before[a].(tags := before[a].tags + PeerTags(cluster));
        ok := ec2.CreateTags(adoptable.value, cluster, a);
        if ok || ec2.peers != now { TreatOne(before, now, ec2.peers, w, todo, ip); }
      } else {
        ghost var id := ec2.nextId;
        assert Needed(before, w, ip);
        ok := ec2.CreatePeer(w, ip);
        if ok || ec2.peers != now { CreateOne(before, now, w, todo, ip, id); }
      }
      SafeAppend(log, old(ec2.calls), ec2.calls, cluster);
    }

    method FillIn(w: Wanted, managedIPs: map<string, nat>, unmanagedIPs: map<string, nat>, ghost before: seq<Peer>,
                  ghost quiet: bool)
      returns (ok: bool, ghost todo: set<string>)
      requires ec2.Valid() && w.cluster == cluster && (quiet ==> Quiet(before, w))
      requires forall ip :: ip in managedIPs <==> LastHolder(before, w.endpoint, cluster, ip) >= 0
      requires forall ip :: ip in w.ips && ip !in managedIPs ==>
                 Read(unmanagedIPs, ip) == AdoptableId(before, w.endpoint, ip)
      requires Progress(before, ec2.peers, w, w.ips - managedIPs.Keys)
      modifies ec2
      ensures ec2.Valid() && ec2.refusals == old(ec2.refusals) && Progress(before, ec2.peers, w, todo)
      ensures SafelyExtends(old(ec2.calls), ec2.calls, cluster)
      ensures quiet ==> ec2.calls == old(ec2.calls)
      ensures ok ==> todo == {}
    {
      SafeNothing(ec2.calls, cluster);
      hide Progress, Quiet, SafelyExtends, LastHolder, LastAdoptable, AdoptableId, Read, Ec2.Valid;
      var left := w.ips;
      todo := w.ips - managedIPs.Keys;
      while left != {}
        invariant left <= w.ips && todo == left - managedIPs.Keys
        invariant ec2.Valid() && ec2.refusals == old(ec2.refusals)
        invariant Progress(before, ec2.peers, w, todo)
        invariant SafelyExtends(old(ec2.calls), ec2.calls, cluster)
        invariant quiet ==> ec2.calls == old(ec2.calls)
      {
        var ip :| ip in left;
        var done := Provide(w, ip, ip in managedIPs, Read(unmanagedIPs, ip), before, todo, quiet, old(ec2.calls));
        if !done {
          if !Progress(before, ec2.peers, w, todo) { todo := todo - {ip}; }
          return false, todo;
        }
        left := left - {ip};
        todo := todo - {ip};
      }
      return true, todo;
    }

    /** The body of the pass for one endpoint. */
    method ReconcileEndpoint(e: string, ips: set<string>) returns (ok: bool, ghost todo: set<string>)
      requires ec2.Valid()
      modifies ec2
      ensures Worked(Want(e, ips), todo)
      ensures ok ==> todo == {}
      ensures forall i :: |old(ec2.peers)| <= i < |ec2.peers| ==> MadeFor(ec2.peers[i], e, ips, cluster, asn, bfd)
    {
      var w := Want(e, ips);
      ghost var before := ec2.peers;
      ghost var held := ManagedMap(Managed(before, e, cluster));
      forall ip ensures ip in held <==> LastHolder(before, e, cluster, ip) >= 0 {
        ManagedMapIs(before, e, cluster, ip);
      }
      todo := held.Keys + ips;
      ProgressStarts(before, w, todo);
      var listed, managedPeers := ListManagedPeers(e);
      if !listed { return false, todo; }
      var managedIPs, deleting := IndexManaged(managedPeers);
      ok, todo := DeleteStale(w, managedIPs, deleting, before, Quiet(before, w));
      NewPeersMade(before, ec2.peers, w, todo);
      if !ok { return; }

      ghost var middle := ec2.peers;
      ghost var calls := ec2.calls;
      var allPeers;
      listed, allPeers := ListAllPeers(e);
      if !listed { return false, todo; }
      var unmanagedIPs := IndexAdoptable(allPeers, managedIPs);
      AdoptableRead(before, middle, w, todo, managedIPs.Keys);
      ok, todo := FillIn(w, managedIPs, unmanagedIPs, before, Quiet(before, w));
      NewPeersMade(before, ec2.peers, w, todo);
      SafeAppend(old(ec2.calls), calls, ec2.calls, cluster);
    }

    // ------------------------------------------------------------- the whole pass

    /** nodesByAZ, filled node by node. */
    method GroupByZone(nodes: seq<RouterNode>) returns (nodesByAZ: Zones)
      ensures nodesByAZ == NodesByAZ(nodes)
    {
      nodesByAZ := map[];
      for i := 0 to |nodes|
        invariant nodesByAZ == NodesByAZ(nodes[..i])
      {
        var n := nodes[i];
        assert nodes[..i + 1] == nodes[..i] + [n];
        if n.zone !in nodesByAZ { nodesByAZ := nodesByAZ[n.zone := {}]; }
        nodesByAZ := nodesByAZ[n.zone := nodesByAZ[n.zone] + {n.privateIP}];
        GroupedSoFar(nodes[..i], n);
      }
      assert nodes[..|nodes|] == nodes;
    }

    /** What is wanted of some endpoints, in order. */
    ghost function WantAll(ids: seq<string>, ips: set<string>): seq<Wanted> {
      if ids == [] then [] else WantAll(ids[..|ids| - 1], ips) + [Want(ids[|ids| - 1], ips)]
    }

    /** What is wanted over the given zones. */
    ghost function WantsOf(zones: seq<string>, nodesByAZ: Zones): seq<Wanted>
      requires forall az :: az in zones ==> az in endpointsByAZ
      reads this
    {
      if zones == [] then []
      else
        var last := zones[|zones| - 1];
        WantsOf(zones[..|zones| - 1], nodesByAZ) + WantAll(endpointsByAZ[last], IPsIn(nodesByAZ, last))
    }

    /** An order in which the map of endpoints may be walked. */
    ghost predicate Walks(zones: seq<string>)
      reads this
    {
      && (forall i, j :: 0 <= i < j < |zones| ==> zones[i] != zones[j])
      && (forall az :: az in zones <==> az in endpointsByAZ)
    }

    /** One endpoint's turn, added to the turns before it. */
    method TakeTurn(e: string, ips: set<string>, ghost start: seq<Peer>, ghost stages: seq<Stage>, ghost settled: bool,
                    ghost log: seq<Call>)
      returns (ok: bool, ghost more: seq<Stage>)
      requires ec2.Valid() && IsPass(start, stages, ec2.peers) && AllFor(stages, cluster)
      requires settled ==> Converged(ec2.peers, Want(e, ips))
      requires SafelyExtends(log, ec2.calls, cluster)
      modifies ec2
      ensures ec2.Valid() && ec2.refusals == old(ec2.refusals)
      ensures IsPass(start, more, ec2.peers) && AllFor(more, cluster)
      ensures Wants(more) == Wants(stages) + [Want(e, ips)]
      ensures ok && Complete(stages) ==> Complete(more)
      ensures SafelyExtends(log, ec2.calls, cluster)
      ensures settled ==> ec2.peers == old(ec2.peers) && ec2.calls == old(ec2.calls)
    {
      ghost var from, w := ec2.peers, Want(e, ips);
      if settled { ConvergedIsQuiet(from, w); }
      ghost var todo;
      ok, todo := ReconcileEndpoint(e, ips);
      SafeAppend(log, old(ec2.calls), ec2.calls, cluster);
      ghost var stage := Stage(w, todo, from, ec2.peers);
      PassExtends(start, stages, from, stage);
      if settled { QuietTurn(from, ec2.peers, w, todo); }
      more := stages + [stage];
    }

    /** The endpoints of one zone, in order. */
    method ReconcileZone(az: string, ips: set<string>, ghost start: seq<Peer>, ghost earlier: seq<Stage>,
                         ghost settled: bool, ghost log: seq<Call>)
      returns (ok: bool, ghost stages: seq<Stage>)
      requires ec2.Valid() && az in endpointsByAZ
      requires IsPass(start, earlier, ec2.peers) && AllFor(earlier, cluster) && Complete(earlier)
      requires settled ==> forall e :: e in endpointsByAZ[az] ==> Converged(ec2.peers, Want(e, ips))
      requires SafelyExtends(log, ec2.calls, cluster)
      modifies ec2
      ensures ec2.Valid() && ec2.refusals == old(ec2.refusals)
      ensures IsPass(start, stages, ec2.peers) && AllFor(stages, cluster)
      ensures Wants(stages) <= Wants(earlier) + WantAll(endpointsByAZ[az], ips)
      ensures ok ==> Complete(stages) && Wants(stages) == Wants(earlier) + WantAll(endpointsByAZ[az], ips)
      ensures SafelyExtends(log, ec2.calls, cluster)
      ensures settled ==> ec2.peers == old(ec2.peers) && ec2.calls == old(ec2.calls)
    {
      hide IsPass, AllFor, Complete, SafelyExtends, Converged, Ec2.Valid;
      stages := earlier;
      var endpointIDs := endpointsByAZ[az];
      for i := 0 to |endpointIDs|
        invariant ec2.Valid() && ec2.refusals == old(ec2.refusals)
        invariant IsPass(start, stages, ec2.peers) && AllFor(stages, cluster) && Complete(stages)
        invariant Wants(stages) == Wants(earlier) + WantAll(endpointIDs[..i], ips)
        invariant SafelyExtends(log, ec2.calls, cluster)
        invariant settled ==> ec2.peers == old(ec2.peers) && ec2.calls == old(ec2.calls)
      {
        ok, stages := TakeTurn(endpointIDs[i], ips, start, stages, settled, log);
        WantAllPrefix(endpointIDs, ips, i);
        if !ok { return; }
      }
      assert endpointIDs[..|endpointIDs|] == endpointIDs;
      return true, stages;
    }

    lemma {:induction false} WantAllPrefix(ids: seq<string>, ips: set<string>, i: nat)
      requires i < |ids|
      ensures WantAll(ids[..i + 1], ips) == WantAll(ids[..i], ips) + [Want(ids[i], ips)]
      ensures WantAll(ids[..i + 1], ips) <= WantAll(ids, ips)
      decreases |ids|
    {
      assert ids[..i + 1][..i] == ids[..i];
      if i + 1 < |ids| {
        var most := ids[..|ids| - 1];
        assert most[..i + 1] == ids[..i + 1] && most[..i] == ids[..i];
        WantAllPrefix(most, ips, i);
      } else {
        assert ids[..i + 1] == ids;
      }
    }

    /** Whether every endpoint is as wanted. */
    ghost predicate Settled(ps: seq<Peer>, nodesByAZ: Zones)
      reads this
    {
      forall az, e :: az in endpointsByAZ && e in endpointsByAZ[az] ==> Converged(ps, Want(e, IPsIn(nodesByAZ, az)))
    }

    /** What a pass needs to converge, for every endpoint. */
    ghost predicate Ready(ps: seq<Peer>, nodesByAZ: Zones)
      reads this
    {
      forall az, e :: az in endpointsByAZ && e in endpointsByAZ[az] ==> Convergent(ps, Want(e, IPsIn(nodesByAZ, az)))
    }

    lemma EmptyPass(ps: seq<Peer>, cluster: string)
      ensures PartWalk([], endpointsByAZ.Keys)
      ensures IsPass(ps, [], ps) && AllFor([], cluster) && Complete([])
    {}

    lemma WantsOfAppend(zones: seq<string>, az: string, nodesByAZ: Zones)
      requires az in endpointsByAZ && forall a :: a in zones ==> a in endpointsByAZ
      ensures WantsOf(zones + [az], nodesByAZ)
              == WantsOf(zones, nodesByAZ) + WantAll(endpointsByAZ[az], IPsIn(nodesByAZ, az))
    {
      assert (zones + [az])[..|zones|] == zones;
    }

    lemma SettledZone(ps: seq<Peer>, nodesByAZ: Zones, az: string)
      requires Settled(ps, nodesByAZ) && az in endpointsByAZ
      ensures forall e :: e in endpointsByAZ[az] ==> Converged(ps, Want(e, IPsIn(nodesByAZ, az)))
    {}

    /** Every zone, in whatever order the map gives them. */
    method ReconcileZones(nodesByAZ: Zones) returns (ok: bool, ghost zones: seq<string>, ghost stages: seq<Stage>)
      requires ec2.Valid()
      modifies ec2
      ensures ec2.Valid() && ec2.refusals == old(ec2.refusals) && Walks(zones)
      ensures IsPass(old(ec2.peers), stages, ec2.peers) && AllFor(stages, cluster)
      ensures Wants(stages) <= WantsOf(zones, nodesByAZ)
      ensures ok ==> Complete(stages) && Wants(stages) == WantsOf(zones, nodesByAZ)
      ensures SafelyExtends(old(ec2.calls), ec2.calls, cluster)
      ensures Settled(old(ec2.peers), nodesByAZ) ==> ec2.peers == old(ec2.peers) && ec2.calls == old(ec2.calls)
    {
      zones, stages := [], [];
      EmptyPass(ec2.peers, cluster);
      SafeNothing(ec2.calls, cluster);
      assert Wants(stages) == WantsOf(zones, nodesByAZ);
      hide IsPass, AllFor, Complete, SafelyExtends, Ec2.Valid, Converged, Settled, WantsOf, WantAll, Wants, PartWalk,
        Walks;
      ghost var settled := Settled(ec2.peers, nodesByAZ);
      var left := endpointsByAZ.Keys;
      while left != {}
        invariant left <= endpointsByAZ.Keys && ec2.Valid() && ec2.refusals == old(ec2.refusals)
        invariant PartWalk(zones, left) && forall az :: az in zones ==> az in endpointsByAZ
        invariant IsPass(old(ec2.peers), stages, ec2.peers) && AllFor(stages, cluster) && Complete(stages)
        invariant Wants(stages) == WantsOf(zones, nodesByAZ)
        invariant SafelyExtends(old(ec2.calls), ec2.calls, cluster)
        invariant settled ==> ec2.peers == old(ec2.peers) && ec2.calls == old(ec2.calls)
      {
        var az :| az in left;
        if settled { SettledZone(ec2.peers, nodesByAZ, az); }
        ok, stages := ReconcileZone(az, IPsIn(nodesByAZ, az), old(ec2.peers), stages, settled, old(ec2.calls));
        WantsOfAppend(zones, az, nodesByAZ);
        PartWalkStep(zones, left, az);
        zones, left := zones + [az], left - {az};
        if !ok {
          zones := CompleteWalk(zones, left, nodesByAZ);
          return;
        }
      }
      WalkDone(zones);
      return true, zones, stages;
    }

    lemma PartWalkStep(zones: seq<string>, left: set<string>, az: string)
      requires PartWalk(zones, left) && az in left && az in endpointsByAZ
      ensures PartWalk(zones + [az], left - {az})
      ensures forall a :: a in zones + [az] ==> a in endpointsByAZ
    {}

    lemma WalkDone(zones: seq<string>)
      requires PartWalk(zones, {})
      ensures Walks(zones)
    {}

    /** Every zone once, but for those left. */
    ghost predicate PartWalk(zones: seq<string>, left: set<string>)
      reads this
    {
      && (forall i, j :: 0 <= i < j < |zones| ==> zones[i] != zones[j])
      && (forall az :: az in zones <==> az in endpointsByAZ && az !in left)
    }

    /** A walk broken off is the beginning of a full one. */
    ghost method CompleteWalk(begun: seq<string>, left: set<string>, nodesByAZ: Zones) returns (zones: seq<string>)
      requires left <= endpointsByAZ.Keys
      requires PartWalk(begun, left)
      ensures Walks(zones) && WantsOf(begun, nodesByAZ) <= WantsOf(zones, nodesByAZ)
    {
      zones := begun;
      var rest := left;
      while rest != {}
        invariant rest <= endpointsByAZ.Keys
        invariant PartWalk(zones, rest)
        invariant WantsOf(begun, nodesByAZ) <= WantsOf(zones, nodesByAZ)
      {
        var az :| az in rest;
        WantsOfAppend(zones, az, nodesByAZ);
        zones, rest := zones + [az], rest - {az};
      }
    }

    // ------------------------------------------------------------------ the gauge

    method CountManagedPeers(nodesByAZ: Zones) returns (ok: bool, managed: nat, ghost zones: seq<string>)
      ensures ok ==> Walks(zones) && managed == CountAll(ec2.peers, WantsOf(zones, nodesByAZ))
      ensures ok ==> exists walk: seq<string> :: Walks(walk) && managed == CountAll(ec2.peers, WantsOf(walk, nodesByAZ))
    {
      managed, zones := 0, [];
      var left := endpointsByAZ.Keys;
      while left != {}
        invariant left <= endpointsByAZ.Keys
        invariant PartWalk(zones, left)
        invariant managed == CountAll(ec2.peers, WantsOf(zones, nodesByAZ))
      {
        var az :| az in left;
        var listed, count := CountZone(endpointsByAZ[az], IPsIn(nodesByAZ, az), WantsOf(zones, nodesByAZ));
        if !listed { return false, 0, zones; }
        managed := managed + count;
        WantsOfAppend(zones, az, nodesByAZ);
        zones, left := zones + [az], left - {az};
      }
      return true, managed, zones;
    }

    method CountZone(ids: seq<string>, ips: set<string>, ghost wants: seq<Wanted>) returns (ok: bool, managed: nat)
      ensures ok ==> CountAll(ec2.peers, wants) + managed == CountAll(ec2.peers, wants + WantAll(ids, ips))
    {
      managed := 0;
      assert wants + WantAll(ids[..0], ips) == wants;
      for i := 0 to |ids|
        invariant CountAll(ec2.peers, wants) + managed == CountAll(ec2.peers, wants + WantAll(ids[..i], ips))
      {
        var listed, peers := ListManagedPeers(ids[i]);
        if !listed { return false, 0; }
        var count := CountPeers(peers, ips);
        CountListed(ec2.peers, Want(ids[i], ips));
        managed := managed + count;
        WantAllPrefix(ids, ips, i);
        OneMoreWant(ec2.peers, wants + WantAll(ids[..i], ips), Want(ids[i], ips));
        assert wants + WantAll(ids[..i + 1], ips) == (wants + WantAll(ids[..i], ips)) + [Want(ids[i], ips)];
      }
      assert ids[..|ids|] == ids;
      return true, managed;
    }

    method CountPeers(peers: seq<Peer>, ips: set<string>) returns (n: nat)
      ensures n == CountIn(peers, ips)
    {
      n := 0;
      for i := 0 to |peers|
        invariant n == CountIn(peers[..i], ips)
      {
        assert peers[..i + 1][..i] == peers[..i];
        if peers[i].address.None? || peers[i].state == Deleted { continue; }
        if peers[i].address.value in ips { n := n + 1; }
      }
      assert peers[..|peers|] == peers;
    }

    /** reconcileRouteServerPeers. The turns taken and the orders the maps were
        walked in are returned beside the result. */
    method ReconcileRouteServerPeers(nodes: seq<RouterNode>)
      returns (ok: bool, managed: nat, ghost zones: seq<string>, ghost stages: seq<Stage>, ghost walk: seq<string>)
      requires ec2.Valid()
      modifies ec2
      ensures ec2.Valid() && ec2.refusals == old(ec2.refusals) && Walks(zones)
      ensures IsPass(old(ec2.peers), stages, ec2.peers) && AllFor(stages, cluster)
      ensures Wants(stages) <= WantsOf(zones, NodesByAZ(nodes))
      ensures ok ==> Complete(stages) && Wants(stages) == WantsOf(zones, NodesByAZ(nodes))
      ensures SafelyExtends(old(ec2.calls), ec2.calls, cluster)
      ensures Settled(old(ec2.peers), NodesByAZ(nodes)) ==> ec2.peers == old(ec2.peers) && ec2.calls == old(ec2.calls)
      ensures ok ==> Walks(walk) && managed == CountAll(ec2.peers, WantsOf(walk, NodesByAZ(nodes)))
    {
      managed, walk := 0, [];
      var nodesByAZ := GroupByZone(nodes);
      ok, zones, stages := ReconcileZones(nodesByAZ);
      if !ok { return; }
      ok, managed, walk := CountManagedPeers(nodesByAZ);
    }

    lemma {:induction false} WantsOfMembers(zones: seq<string>, nodesByAZ: Zones)
      requires Walks(zones)
      ensures forall w :: w in WantsOf(zones, nodesByAZ) <==>
                exists az :: az in endpointsByAZ && w.endpoint in endpointsByAZ[az]
                             && w == Want(w.endpoint, IPsIn(nodesByAZ, az))
    {
      WantsOfSome(zones, nodesByAZ);
      forall w
        ensures w in WantsOf(zones, nodesByAZ) <==>
                exists az :: az in endpointsByAZ && w.endpoint in endpointsByAZ[az]
                             && w == Want(w.endpoint, IPsIn(nodesByAZ, az))
      {}
    }

    lemma {:induction false} WantsOfSome(zones: seq<string>, nodesByAZ: Zones)
      requires forall az :: az in zones ==> az in endpointsByAZ
      ensures forall w :: w in WantsOf(zones, nodesByAZ) <==>
                exists az :: az in zones && w.endpoint in endpointsByAZ[az]
                             && w == Want(w.endpoint, IPsIn(nodesByAZ, az))
    {
      if zones != [] {
        var most, last := zones[..|zones| - 1], zones[|zones| - 1];
        assert zones == most + [last];
        WantsOfSome(most, nodesByAZ);
        WantAllMembers(endpointsByAZ[last], IPsIn(nodesByAZ, last));
      }
    }

    lemma {:induction false} WantAllMembers(ids: seq<string>, ips: set<string>)
      ensures forall w :: w in WantAll(ids, ips) <==> w.endpoint in ids && w == Want(w.endpoint, ips)
      ensures |WantAll(ids, ips)| == |ids| && forall i :: 0 <= i < |ids| ==> WantAll(ids, ips)[i] == Want(ids[i], ips)
    {
      if ids != [] {
        WantAllMembers(ids[..|ids| - 1], ips);
        assert ids == ids[..|ids| - 1] + [ids[|ids| - 1]];
      }
    }

    /** Endpoints that discovery has put in one zone each are asked for once. */
    lemma {:induction false} WantsAreDistinct(zones: seq<string>, nodesByAZ: Zones)
      requires forall az :: az in zones ==> az in endpointsByAZ
      requires forall i, j :: 0 <= i < j < |zones| ==> zones[i] != zones[j]
      requires WellZoned(endpointsByAZ)
      ensures DistinctEndpoints(WantsOf(zones, nodesByAZ))
    {
      if zones != [] {
        var most, last := zones[..|zones| - 1], zones[|zones| - 1];
        assert last in zones && zones[|zones| - 1] == last;
        WantsAreDistinct(most, nodesByAZ);
        WantsOfSome(most, nodesByAZ);
        WantAllMembers(endpointsByAZ[last], IPsIn(nodesByAZ, last));
        var a, b := WantsOf(most, nodesByAZ), WantAll(endpointsByAZ[last], IPsIn(nodesByAZ, last));
        forall i, j | 0 <= i < |a| && 0 <= j < |b| ensures a[i].endpoint != b[j].endpoint {
          assert a[i] in a;
          var az :| az in most && a[i].endpoint in endpointsByAZ[az];
          var k :| 0 <= k < |endpointsByAZ[az]| && endpointsByAZ[az][k] == a[i].endpoint;
        }
      }
    }

    /** Made for a node, on an endpoint of its zone, with the platform's ASN and liveness
        detection and the cluster's tag. */
    ghost predicate MadeForNode(p: Peer, nodes: seq<RouterNode>)
      reads this
    {
      && p.asn == asn && p.bfd == bfd
      && "managed-by" in p.tags && p.tags["managed-by"] == "bgp-cloud-connector/" + cluster
      && exists n :: n in nodes && p.address == Some(n.privateIP)
                     && n.zone in endpointsByAZ && p.endpoint in endpointsByAZ[n.zone]
    }

    lemma PassMakesForNodes(before: seq<Peer>, stages: seq<Stage>, after: seq<Peer>, zones: seq<string>,
                            nodes: seq<RouterNode>)
      requires IsPass(before, stages, after) && AllFor(stages, cluster) && Walks(zones)
      requires Wants(stages) <= WantsOf(zones, NodesByAZ(nodes))
      ensures |before| <= |after| && forall i :: |before| <= i < |after| ==> MadeForNode(after[i], nodes)
    {
      PassMakes(before, stages, after, cluster);
      WantsOfMembers(zones, NodesByAZ(nodes));
      hide IsPass, AllFor, Walks, WantsOf;
      forall i | |before| <= i < |after| ensures MadeForNode(after[i], nodes) {
        var k :| 0 <= k < |stages|
                 && var w := stages[k].w; MadeFor(after[i], w.endpoint, w.ips, w.cluster, w.asn, w.bfd);
        var w := stages[k].w;
        assert Wants(stages)[k] == w && WantsOf(zones, NodesByAZ(nodes))[k] == w;
        assert w in WantsOf(zones, NodesByAZ(nodes));
        var az :| az in endpointsByAZ && w.endpoint in endpointsByAZ[az]
                  && w == Want(w.endpoint, IPsIn(NodesByAZ(nodes), az));
        var n :| n in nodes && n.zone == az && n.privateIP == after[i].address.value;
      }
    }

    /** Settled, read off the listed fields: on every endpoint of a zone each node of the
        zone has a live peer with the cluster's tag at its address, and there is no
        other such peer that carries both fields. */
    lemma SettledReads(ps: seq<Peer>, nodes: seq<RouterNode>, az: string, e: string)
      requires Settled(ps, NodesByAZ(nodes)) && az in endpointsByAZ && e in endpointsByAZ[az]
      ensures forall n :: n in nodes && n.zone == az ==>
                exists p :: p in ps && p.endpoint == e && p.address == Some(n.privateIP)
                            && p.state != Deleting && p.state != Deleted
                            && "managed-by" in p.tags && p.tags["managed-by"] == "bgp-cloud-connector/" + cluster
      ensures forall p :: p in ps && p.endpoint == e && p.id.Some? && p.address.Some?
                          && p.state != Deleting && p.state != Deleted
                          && "managed-by" in p.tags && p.tags["managed-by"] == "bgp-cloud-connector/" + cluster ==>
                exists n :: n in nodes && n.zone == az && n.privateIP == p.address.value
    {
      var w := Want(e, IPsIn(NodesByAZ(nodes), az));
      ConvergedReads(ps, w);
      hide Converged, Settled;
      assert forall n :: n in nodes && n.zone == az ==> n.privateIP in w.ips;
    }

    /** ReconcileNodes, up to the source/dest check, whose failure is all that is
        kept of it. An empty node list changes nothing. After a successful pass over
        endpoints in one zone each, every endpoint is as wanted if and only if there
        were no rivals and no wanted address about to be released; then, where peers
        carry both fields, the gauge shows one peer per endpoint and distinct
        address. */
    method ReconcileNodes(nodes: seq<RouterNode>)
      returns (ok: bool, gauge: Option<nat>, ghost walk: seq<string>)
      requires ec2.Valid()
      modifies ec2
      ensures ec2.Valid() && ec2.refusals == old(ec2.refusals)
      ensures SafelyExtends(old(ec2.calls), ec2.calls, cluster)
      ensures nodes == [] ==> ok && gauge == None && ec2.peers == old(ec2.peers) && ec2.calls == old(ec2.calls)
      ensures NoRivals(old(ec2.peers), cluster) ==> NoRivals(ec2.peers, cluster)
      ensures |old(ec2.peers)| <= |ec2.peers|
      ensures forall i :: |old(ec2.peers)| <= i < |ec2.peers| ==> MadeForNode(ec2.peers[i], nodes)
      ensures Settled(old(ec2.peers), NodesByAZ(nodes)) ==> ec2.peers == old(ec2.peers) && ec2.calls == old(ec2.calls)
      ensures ok && nodes != [] && WellZoned(endpointsByAZ) ==>
                (Settled(ec2.peers, NodesByAZ(nodes)) <==> Ready(old(ec2.peers), NodesByAZ(nodes)))
      ensures ok && nodes != [] && WellZoned(endpointsByAZ) && Ready(old(ec2.peers), NodesByAZ(nodes))
              && Walks(walk) && (forall w :: w in WantsOf(walk, NodesByAZ(nodes)) ==> CarryBoth(ec2.peers, w)) ==>
                gauge == Some(Asked(WantsOf(walk, NodesByAZ(nodes))))
      ensures ok && nodes != [] ==> Walks(walk)
    {
      SafeNothing(ec2.calls, cluster);
      hide IsPass, Complete, AllFor, NoRivals, SafelyExtends, WellZoned, CarryBoth, Settled, Ready, NodesByAZ, Walks;
      walk := [];
      if |nodes| == 0 { return true, None, walk; }
      var managed;
      ghost var zones, stages;
      ok, managed, zones, stages, walk := ReconcileRouteServerPeers(nodes);
      PassMakesForNodes(old(ec2.peers), stages, ec2.peers, zones, nodes);
      if NoRivals(old(ec2.peers), cluster) { PassKeepsNoRivals(old(ec2.peers), stages, ec2.peers, cluster); }
      if !ok { return false, None, walk; }
      if WellZoned(endpointsByAZ) {
        PassSettles(old(ec2.peers), stages, ec2.peers, zones, NodesByAZ(nodes));
        if Ready(old(ec2.peers), NodesByAZ(nodes))
           && forall w :: w in WantsOf(walk, NodesByAZ(nodes)) ==> CarryBoth(ec2.peers, w)
        {
          SettledWants(ec2.peers, walk, NodesByAZ(nodes));
          GaugeWhenConverged(ec2.peers, WantsOf(walk, NodesByAZ(nodes)));
        }
      }
      gauge := Some(managed);
      ok := *;
    }

    lemma PassSettles(before: seq<Peer>, stages: seq<Stage>, after: seq<Peer>, zones: seq<string>, nodesByAZ: Zones)
      requires IsPass(before, stages, after) && Complete(stages)
      requires Walks(zones) && Wants(stages) == WantsOf(zones, nodesByAZ)
      requires WellZoned(endpointsByAZ)
      ensures Settled(after, nodesByAZ) <==> Ready(before, nodesByAZ)
    {
      hide IsPass, Complete, Converged, Convergent, WellZoned;
      WantsAreDistinct(zones, nodesByAZ);
      WantsOfMembers(zones, nodesByAZ);
      forall az, e | az in endpointsByAZ && e in endpointsByAZ[az]
        ensures var w := Want(e, IPsIn(nodesByAZ, az)); Converged(after, w) <==> Convergent(before, w)
      {
        assert Want(e, IPsIn(nodesByAZ, az)) in Wants(stages);
        var k :| 0 <= k < |stages| && Wants(stages)[k] == Want(e, IPsIn(nodesByAZ, az));
        PassConverges(before, stages, after, k);
      }
    }

    lemma SettledWants(ps: seq<Peer>, zones: seq<string>, nodesByAZ: Zones)
      requires Walks(zones) && Settled(ps, nodesByAZ)
      ensures forall w :: w in WantsOf(zones, nodesByAZ) ==> Converged(ps, w)
    {
      hide Converged;
      WantsOfMembers(zones, nodesByAZ);
    }

    // ------------------------------------------------------------------- clean-up

    /** deleteAllManagedPeers on one endpoint. */
    method CleanEndpoint(e: string, ghost log: seq<Call>) returns (ok: bool)
      requires ec2.Valid() && SafelyExtends(log, ec2.calls, cluster)
      modifies ec2
      ensures ec2.Valid() && ec2.refusals == old(ec2.refusals) && SafelyExtends(log, ec2.calls, cluster)
      ensures CleanedAt(old(ec2.peers), ec2.peers, {e}, cluster)
      ensures ok ==> NoneLeft(ec2.peers, e, cluster)
    {
      NothingCleaned(ec2.peers, e, cluster);
      hide SafelyExtends, CleanedAt, CleanedUpTo, NoneLeft, Ec2.Valid, Managed, ManagedIndices;
      var listed, peers := ListManagedPeers(e);
      if !listed { return false; }
      ghost var before := ec2.peers;
      ghost var at := ManagedIndices(before, e, cluster);
      ManagedStand(before, e, cluster);
      ManagedStandAll(before, e, cluster);
      NoneClean(before, at);
      for i := 0 to |peers|
        invariant ec2.Valid() && ec2.refusals == old(ec2.refusals) && SafelyExtends(log, ec2.calls, cluster)
        invariant CleanedAt(before, ec2.peers, {e}, cluster) && CleanedUpTo(before, ec2.peers, at, i)
      {
        ghost var now := ec2.peers;
        NextToClean(before, now, at, i, peers);
        assert at[i] in at;
        ok := CleanPeer(peers[i], at[i], log);
        CleanedTwice(before, now, ec2.peers, {e}, e, cluster);
        if !ok { return; }
        OneMoreClean(before, now, ec2.peers, at, i);
      }
      AllClean(before, ec2.peers, e, cluster, at);
      return true;
    }

    /** One listed managed peer: deleted unless it cannot be named or is going or
        gone. */
    method CleanPeer(peer: Peer, ghost k: nat, ghost log: seq<Call>) returns (ok: bool)
      requires ec2.Valid() && SafelyExtends(log, ec2.calls, cluster)
      requires k < |ec2.peers| && ec2.peers[k] == peer && HasTag(peer, cluster)
      modifies ec2
      ensures ec2.Valid() && ec2.refusals == old(ec2.refusals) && SafelyExtends(log, ec2.calls, cluster)
      ensures |ec2.peers| == |old(ec2.peers)|
      ensures forall i :: 0 <= i < |ec2.peers| && i != k ==> ec2.peers[i] == old(ec2.peers)[i]
      ensures CleanedAt(old(ec2.peers), ec2.peers, {peer.endpoint}, cluster)
      ensures ok && peer.id.Some? ==> !Alive(ec2.peers[k])
    {
      if peer.id.None? || peer.state == Deleting || peer.state == Deleted { return true; }
      ok := ec2.DeletePeer(peer.id.value, k);
      SafeAppend(log, old(ec2.calls), ec2.calls, cluster);
    }

    /** deleteAllManagedPeers: every endpoint of every zone, in any order. */
    method DeleteAllManagedPeers() returns (ok: bool)
      requires ec2.Valid()
      modifies ec2
      ensures ec2.Valid() && ec2.refusals == old(ec2.refusals)
      ensures SafelyExtends(old(ec2.calls), ec2.calls, cluster)
      ensures CleanedAt(old(ec2.peers), ec2.peers, Endpoints(endpointsByAZ), cluster)
      ensures ok ==> forall e :: e in Endpoints(endpointsByAZ) ==> NoneLeft(ec2.peers, e, cluster)
    {
      ghost var before, all, done := ec2.peers, Endpoints(endpointsByAZ), {};
      var left := endpointsByAZ.Keys;
      while left != {}
        invariant left <= endpointsByAZ.Keys && done <= all
        invariant forall az, e :: az in endpointsByAZ && az !in left && e in endpointsByAZ[az] ==> e in done
        invariant ec2.Valid() && ec2.refusals == old(ec2.refusals)
        invariant SafelyExtends(old(ec2.calls), ec2.calls, cluster)
        invariant CleanedAt(before, ec2.peers, all, cluster)
        invariant forall e :: e in done ==> NoneLeft(ec2.peers, e, cluster)
      {
        var az :| az in left;
        var ids := endpointsByAZ[az];
        for i := 0 to |ids|
          invariant done <= all && forall k :: 0 <= k < i ==> ids[k] in done
          invariant forall az, e :: az in endpointsByAZ && az !in left && e in endpointsByAZ[az] ==> e in done
          invariant ec2.Valid() && ec2.refusals == old(ec2.refusals)
          invariant SafelyExtends(old(ec2.calls), ec2.calls, cluster)
          invariant CleanedAt(before, ec2.peers, all, cluster)
          invariant forall e :: e in done ==> NoneLeft(ec2.peers, e, cluster)
        {
          ghost var now := ec2.peers;
          assert ids[i] in endpointsByAZ[az] && ids[i] in all;
          ok := CleanEndpoint(ids[i], old(ec2.calls));
          CleanedTwice(before, now, ec2.peers, all, ids[i], cluster);
          if !ok { return; }
          forall e | e in done ensures NoneLeft(ec2.peers, e, cluster) {
            StaysClean(now, ec2.peers, {ids[i]}, e, cluster);
          }
          done := done + {ids[i]};
        }
        left := left - {az};
      }
      return true;
    }
  }
}
