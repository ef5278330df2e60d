/** The Azure platform: this cluster's peerings on a Route Server that other
    clusters may use too. */
module AzurePlatform {
  import opened Options
  import opened Sorting
  import opened AzureNames
  import opened AzureRouteServer
  import opened PlatformTypes

  function Foreign(s: Store, clusterID: string): Store {
    map name | name in s && !IsOurPeering(name, clusterID) :: s[name]
  }

  function Owned(s: Store, clusterID: string): Store {
    map name | name in s && IsOurPeering(name, clusterID) :: s[name]
  }

  predicate Addressed(nodes: seq<RouterNode>) {
    forall n :: n in nodes ==> IsAddress(n.privateIP)
  }

  /** Every node's name keeps the whole prefix. */
  predicate Untrimmed(nodes: seq<RouterNode>, clusterID: string) {
    forall n :: n in nodes ==> |clusterID| + |n.privateIP| <= 75
  }

  function Addresses(nodes: seq<RouterNode>): set<string> {
    set n | n in nodes :: n.privateIP
  }

  function PeerOf(n: RouterNode, clusterID: string, asn: int): Peer
    requires IsAddress(n.privateIP)
  {
    Peer(PeeringName(clusterID, n.privateIP), Conn(n.privateIP, asn))
  }

  /** One peering per node, under its name, and no other. */
  ghost predicate ExactlyFor(s: Store, nodes: seq<RouterNode>, clusterID: string, asn: int)
    requires Addressed(nodes)
  {
    && (forall n :: n in nodes ==>
          At(s, PeeringName(clusterID, n.privateIP)) == Some(Conn(n.privateIP, asn)))
    && (forall name :: name in s ==> exists n :: n in nodes && name == PeeringName(clusterID, n.privateIP))
  }

  /** The peerings asked for, by name. */
  function AskedFor(nodes: seq<RouterNode>, clusterID: string, asn: int): Store
    requires Addressed(nodes)
  {
    if nodes == [] then map[]
    else
      var n := nodes[|nodes| - 1];
      AskedFor(nodes[..|nodes| - 1], clusterID, asn)[PeeringName(clusterID, n.privateIP) := Conn(n.privateIP, asn)]
  }

  lemma OneMoreAsked(most: seq<RouterNode>, n: RouterNode, clusterID: string, asn: int, s: Store)
    requires Addressed(most) && IsAddress(n.privateIP) && ExactlyFor(s, most, clusterID, asn)
    ensures Addressed(most + [n])
    ensures ExactlyFor(s[PeeringName(clusterID, n.privateIP) := Conn(n.privateIP, asn)], most + [n], clusterID, asn)
  {
    forall m | m in most
      ensures PeeringName(clusterID, m.privateIP) == PeeringName(clusterID, n.privateIP) ==> m.privateIP == n.privateIP
    {
      PeeringNamesDistinct(clusterID, m.privateIP, n.privateIP);
    }
    hide PeeringName, IsAddress;
    assert n in most + [n];
  }

  lemma {:induction false} AskedIsExact(nodes: seq<RouterNode>, clusterID: string, asn: int)
    requires Addressed(nodes)
    ensures ExactlyFor(AskedFor(nodes, clusterID, asn), nodes, clusterID, asn)
  {
    if nodes != [] {
      var most, n := nodes[..|nodes| - 1], nodes[|nodes| - 1];
      assert nodes == most + [n];
      AskedIsExact(most, clusterID, asn);
      hide ExactlyFor, IsAddress, PeeringName;
      OneMoreAsked(most, n, clusterID, asn, AskedFor(most, clusterID, asn));
    }
  }

  /** What a finished call makes of the store it first listed: of the cluster's own
      names what is asked for; a name asked for that is not recognised as its own
      has either connection, if it was there already; nothing else changes. */
  ghost predicate Made(before: Store, asked: Store, after: Store, clusterID: string) {
    forall name ::
      if IsOurPeering(name, clusterID) then At(after, name) == At(asked, name)
      else if name in asked then
        At(after, name) == At(asked, name) || (name in before && At(after, name) == At(before, name))
      else At(after, name) == At(before, name)
  }

  /** At these points a name that is neither the cluster's own nor asked for is as
      it was before, or as others have left it since. */
  ghost predicate OthersKept(states: seq<Store>, before: Store, meanwhile: Store, clusterID: string,
                             asked: set<string>) {
    forall s, name :: s in states && !IsOurPeering(name, clusterID) && name !in asked ==>
      At(s, name) in {At(before, name), At(meanwhile, name)}
  }

  ghost predicate ForeignKept(states: seq<Store>, before: Store, clusterID: string) {
    forall s :: s in states ==> Foreign(s, clusterID) == Foreign(before, clusterID)
  }

  // ----------------------------------------------------------- the desired list

  ghost predicate IsDesired(desired: seq<Peer>, nodes: seq<RouterNode>, clusterID: string, asn: int)
    requires Addressed(nodes)
  {
    && |desired| == |nodes|
    && forall i :: 0 <= i < |nodes| ==> desired[i] == PeerOf(nodes[i], clusterID, asn)
  }

  /** The list handed to ReconcilePeers: what is wanted for this cluster and
      what `seen` holds of others. */
  ghost predicate Padded(list: seq<Peer>, desired: seq<Peer>, seen: Store, clusterID: string) {
    forall p :: p in list <==> p in desired || At(Foreign(seen, clusterID), p.name) == Some(p.conn)
  }

  ghost predicate AllOurs(desired: seq<Peer>, clusterID: string) {
    forall p :: p in desired ==> IsOurPeering(p.name, clusterID)
  }

  /** With only names of our own in the desired list, what is wanted of the rest
      is what was seen of it. */
  lemma WantedForeign(list: seq<Peer>, desired: seq<Peer>, seen: Store, clusterID: string, wanted: Store)
    requires Padded(list, desired, seen, clusterID) && AllOurs(desired, clusterID) && Wants(list, wanted)
    ensures Foreign(wanted, clusterID) == Foreign(seen, clusterID)
    ensures Wants(desired, Owned(wanted, clusterID))
  {
    forall name | name in Foreign(seen, clusterID)
      ensures name in wanted && wanted[name] == seen[name]
    {
      assert Peer(name, seen[name]) in list;
      assert Peer(name, wanted[name]) in list;
    }
    forall name | name in Foreign(wanted, clusterID) ensures name in Foreign(seen, clusterID) {
      assert Peer(name, wanted[name]) in list;
    }
    forall name | name in Owned(wanted, clusterID) ensures Peer(name, wanted[name]) in desired {
      assert Peer(name, wanted[name]) in list;
    }
  }

  function NamesOf(desired: seq<Peer>): set<string> {
    set p | p in desired :: p.name
  }

  /** Trimmed or not, of names not asked for the rest is wanted as seen. */
  lemma WantedOther(list: seq<Peer>, desired: seq<Peer>, seen: Store, clusterID: string, wanted: Store, name: string)
    requires Padded(list, desired, seen, clusterID) && Wants(list, wanted)
    requires !IsOurPeering(name, clusterID) && name !in NamesOf(desired)
    ensures At(wanted, name) == At(seen, name)
  {
    if name in wanted { assert Peer(name, wanted[name]) in list; }
    if name in seen {
      assert At(Foreign(seen, clusterID), name) == Some(seen[name]);
      assert Peer(name, seen[name]) in list;
    }
  }

  lemma OthersKeptBetween(list: seq<Peer>, desired: seq<Peer>, seen: Store, meanwhile: Store, clusterID: string,
                          wanted: Store, states: seq<Store>)
    requires Padded(list, desired, seen, clusterID) && Wants(list, wanted)
    requires AllBetween(meanwhile, wanted, states)
    ensures OthersKept(states, seen, meanwhile, clusterID, NamesOf(desired))
  {
    forall s, name | s in states && !IsOurPeering(name, clusterID) && name !in NamesOf(desired)
      ensures At(s, name) in {At(seen, name), At(meanwhile, name)}
    {
      WantedOther(list, desired, seen, clusterID, wanted, name);
      assert At(s, name) in {At(meanwhile, name), At(wanted, name)};
    }
  }

  lemma WantedIsMade(list: seq<Peer>, desired: seq<Peer>, seen: Store, clusterID: string, wanted: Store, asked: Store)
    requires Padded(list, desired, seen, clusterID) && Wants(list, wanted)
    requires forall p :: p in desired <==> At(asked, p.name) == Some(p.conn)
    ensures Made(seen, asked, wanted, clusterID)
  {
    forall name
      ensures
        if IsOurPeering(name, clusterID) then At(wanted, name) == At(asked, name)
        else if name in asked then
          At(wanted, name) == At(asked, name) || (name in seen && At(wanted, name) == At(seen, name))
        else At(wanted, name) == At(seen, name)
    {
      if name in asked { assert Peer(name, asked[name]) in list; }
      if name in wanted {
        assert Peer(name, wanted[name]) in list;
        if Peer(name, wanted[name]) in desired { assert At(asked, name) == Some(wanted[name]); }
      }
      if !IsOurPeering(name, clusterID) && name !in asked {
        assert name !in NamesOf(desired);
        WantedOther(list, desired, seen, clusterID, wanted, name);
      }
    }
  }

  lemma KeptBetween(before: Store, wanted: Store, s: Store, clusterID: string)
    requires Between(before, wanted, s) && Foreign(wanted, clusterID) == Foreign(before, clusterID)
    ensures Foreign(s, clusterID) == Foreign(before, clusterID)
  {
    var b, w := Foreign(before, clusterID), Foreign(wanted, clusterID);
    forall name | !IsOurPeering(name, clusterID) ensures At(s, name) == At(before, name) {
      assert At(b, name) == At(w, name);
      assert At(b, name) == At(before, name) && At(w, name) == At(wanted, name);
      assert At(s, name) in {At(before, name), At(wanted, name)};
    }
    forall name ensures name in Foreign(s, clusterID) <==> name in b {
      assert !IsOurPeering(name, clusterID) ==> At(s, name) == At(before, name);
    }
    forall name | name in Foreign(s, clusterID) ensures s[name] == before[name] {
      assert At(s, name) == At(before, name);
    }
  }

  lemma AllKeptBetween(before: Store, wanted: Store, states: seq<Store>, clusterID: string)
    requires AllBetween(before, wanted, states) && Foreign(wanted, clusterID) == Foreign(before, clusterID)
    ensures ForeignKept(states, before, clusterID)
  {
    forall s | s in states ensures Foreign(s, clusterID) == Foreign(before, clusterID) {
      KeptBetween(before, wanted, s, clusterID);
    }
  }

  lemma Halves(s: Store, t: Store, clusterID: string)
    requires Foreign(s, clusterID) == Foreign(t, clusterID) && Owned(s, clusterID) == Owned(t, clusterID)
    ensures s == t
  {
    forall name ensures At(s, name) == At(t, name) {
      assert At(s, name) == if IsOurPeering(name, clusterID) then At(Owned(s, clusterID), name)
                            else At(Foreign(s, clusterID), name);
      assert At(t, name) == if IsOurPeering(name, clusterID) then At(Owned(t, clusterID), name)
                            else At(Foreign(t, clusterID), name);
    }
    SameStore(s, t);
  }

  // ------------------------------------------------------- what the nodes want

  lemma OwnNames(desired: seq<Peer>, nodes: seq<RouterNode>, clusterID: string, asn: int)
    requires Addressed(nodes) && IsDesired(desired, nodes, clusterID, asn)
    ensures AllOurs(desired, clusterID) <==> Untrimmed(nodes, clusterID)
  {
    forall n | n in nodes
      ensures IsOurPeering(PeeringName(clusterID, n.privateIP), clusterID) <==> |clusterID| + |n.privateIP| <= 75
    {
      OwnPeeringRecognised(clusterID, n.privateIP);
    }
    if AllOurs(desired, clusterID) {
      forall n | n in nodes ensures |clusterID| + |n.privateIP| <= 75 {
        var i :| 0 <= i < |nodes| && nodes[i] == n;
        assert desired[i] in desired;
      }
    }
  }

  /** Names of distinct addresses being distinct, the nodes want one store. */
  lemma NodesWant(desired: seq<Peer>, nodes: seq<RouterNode>, clusterID: string, asn: int, s: Store)
    requires Addressed(nodes) && IsDesired(desired, nodes, clusterID, asn)
    ensures Wants(desired, s) <==> ExactlyFor(s, nodes, clusterID, asn)
  {
    if Wants(desired, s) {
      WantedFor(desired, nodes, clusterID, asn, s);
    }
    if ExactlyFor(s, nodes, clusterID, asn) {
      ExactlyWanted(desired, nodes, clusterID, asn, s);
    }
  }

  lemma ExactlyWanted(desired: seq<Peer>, nodes: seq<RouterNode>, clusterID: string, asn: int, s: Store)
    requires Addressed(nodes) && IsDesired(desired, nodes, clusterID, asn) && ExactlyFor(s, nodes, clusterID, asn)
    ensures Wants(desired, s)
  {
    forall p | p in desired ensures p.name in s {
      var i :| 0 <= i < |desired| && desired[i] == p;
      assert nodes[i] in nodes;
      assert At(s, p.name).Some?;
    }
    forall name | name in s ensures Peer(name, s[name]) in desired {
      var n :| n in nodes && name == PeeringName(clusterID, n.privateIP);
      assert At(s, name) == Some(Conn(n.privateIP, asn));
      PeerOfMember(desired, nodes, clusterID, asn, n);
    }
  }

  lemma PeerOfMember(desired: seq<Peer>, nodes: seq<RouterNode>, clusterID: string, asn: int, n: RouterNode)
    requires Addressed(nodes) && IsDesired(desired, nodes, clusterID, asn) && n in nodes
    ensures PeerOf(n, clusterID, asn) in desired
  {
    var i :| 0 <= i < |nodes| && nodes[i] == n;
    assert desired[i] in desired;
  }

  lemma WantedFor(desired: seq<Peer>, nodes: seq<RouterNode>, clusterID: string, asn: int, s: Store)
    requires Addressed(nodes) && IsDesired(desired, nodes, clusterID, asn) && Wants(desired, s)
    ensures ExactlyFor(s, nodes, clusterID, asn)
  {
    forall n | n in nodes ensures At(s, PeeringName(clusterID, n.privateIP)) == Some(Conn(n.privateIP, asn)) {
      var i :| 0 <= i < |nodes| && nodes[i] == n;
      assert desired[i] in desired;
      var name := PeeringName(clusterID, n.privateIP);
      assert Peer(name, s[name]) in desired;
      var j :| 0 <= j < |desired| && desired[j] == Peer(name, s[name]);
      PeeringNamesDistinct(clusterID, n.privateIP, nodes[j].privateIP);
    }
    forall name | name in s ensures exists n :: n in nodes && name == PeeringName(clusterID, n.privateIP) {
      assert Peer(name, s[name]) in desired;
      var j :| 0 <= j < |desired| && desired[j] == Peer(name, s[name]);
      assert nodes[j] in nodes;
    }
  }

  lemma DesiredIsAsked(desired: seq<Peer>, nodes: seq<RouterNode>, clusterID: string, asn: int)
    requires Addressed(nodes) && IsDesired(desired, nodes, clusterID, asn)
    ensures var asked := AskedFor(nodes, clusterID, asn);
            && (forall p :: p in desired <==> At(asked, p.name) == Some(p.conn))
            && NamesOf(desired) == asked.Keys
  {
    var asked := AskedFor(nodes, clusterID, asn);
    AskedIsExact(nodes, clusterID, asn);
    forall p ensures p in desired <==> At(asked, p.name) == Some(p.conn) {
      if p in desired {
        var i :| 0 <= i < |desired| && desired[i] == p;
        assert nodes[i] in nodes;
      }
      if At(asked, p.name) == Some(p.conn) {
        var n :| n in nodes && p.name == PeeringName(clusterID, n.privateIP);
        PeerOfMember(desired, nodes, clusterID, asn, n);
      }
    }
    forall name ensures name in NamesOf(desired) <==> name in asked {
      if name in asked { assert Peer(name, asked[name]) in desired; }
    }
  }

  lemma SameWanted(s: Store, t: Store, nodes: seq<RouterNode>, clusterID: string, asn: int)
    requires Addressed(nodes) && ExactlyFor(s, nodes, clusterID, asn) && ExactlyFor(t, nodes, clusterID, asn)
    ensures s == t
  {
    forall name ensures At(s, name) == At(t, name) {
      if name in s {
        var n :| n in nodes && name == PeeringName(clusterID, n.privateIP);
        assert At(s, name) == Some(Conn(n.privateIP, asn)) == At(t, name);
      }
      if name in t {
        var n :| n in nodes && name == PeeringName(clusterID, n.privateIP);
        assert At(s, name) == Some(Conn(n.privateIP, asn)) == At(t, name);
      }
    }
    SameStore(s, t);
  }

  /** A trimmed name is never taken for the cluster's own: a pass that succeeds
      leaves this cluster exactly its nodes' peerings if and only if no name
      was trimmed. */
  lemma TrimmedNotOwned(nodes: seq<RouterNode>, clusterID: string, asn: int, s: Store)
    requires Addressed(nodes) && ExactlyFor(Owned(s, clusterID), nodes, clusterID, asn)
    ensures Untrimmed(nodes, clusterID)
  {
    forall n | n in nodes ensures |clusterID| + |n.privateIP| <= 75 {
      AddressFacts(n.privateIP);
      OwnPeeringRecognised(clusterID, n.privateIP);
      hide PeeringName, IsIPv4, IsIPv6, IsOurPeering;
      var name := PeeringName(clusterID, n.privateIP);
      assert At(Owned(s, clusterID), name) == Some(Conn(n.privateIP, asn));
      assert name in Owned(s, clusterID);
    }
  }

  /** What a pass, or a clean-up, leaves of the peering this cluster made for an
      address that is not desired: whether it was there, and trimmed. */
  lemma LeftBehind(list: seq<Peer>, desired: seq<Peer>, seen: Store, clusterID: string, wanted: Store, address: string)
    requires Padded(list, desired, seen, clusterID) && Wants(list, wanted) && IsAddress(address)
    requires forall p :: p in desired ==> p.name != PeeringName(clusterID, address)
    ensures PeeringName(clusterID, address) in wanted <==>
            PeeringName(clusterID, address) in seen && |clusterID| + |address| > 75
  {
    var name := PeeringName(clusterID, address);
    OwnPeeringRecognised(clusterID, address);
    if name in wanted { assert Peer(name, wanted[name]) in list; }
    if name in Foreign(seen, clusterID) { assert Peer(name, seen[name]) in list; }
  }

  lemma NotDesired(desired: seq<Peer>, nodes: seq<RouterNode>, clusterID: string, asn: int, address: string)
    requires Addressed(nodes) && IsDesired(desired, nodes, clusterID, asn) && IsAddress(address)
    requires address !in Addresses(nodes)
    ensures forall p :: p in desired ==> p.name != PeeringName(clusterID, address)
  {
    forall p | p in desired ensures p.name != PeeringName(clusterID, address) {
      var i :| 0 <= i < |desired| && desired[i] == p;
      assert nodes[i] in nodes && nodes[i].privateIP in Addresses(nodes);
      PeeringNamesDistinct(clusterID, nodes[i].privateIP, address);
    }
  }

  /** The peerings this cluster made for addresses it has no node at any more: those
      left are the ones there before whose names were trimmed. */
  ghost predicate OnlyTrimmedLeft(before: Store, after: Store, clusterID: string, kept: set<string>) {
    forall address :: IsAddress(address) && address !in kept ==>
      (PeeringName(clusterID, address) in after <==>
       PeeringName(clusterID, address) in before && |clusterID| + |address| > 75)
  }

  lemma TrimmedLeft(list: seq<Peer>, desired: seq<Peer>, seen: Store, clusterID: string, wanted: Store,
                    nodes: seq<RouterNode>, asn: int)
    requires Addressed(nodes) && IsDesired(desired, nodes, clusterID, asn)
    requires Padded(list, desired, seen, clusterID) && Wants(list, wanted)
    ensures OnlyTrimmedLeft(seen, wanted, clusterID, Addresses(nodes))
  {
    forall address | IsAddress(address) && address !in Addresses(nodes)
      ensures PeeringName(clusterID, address) in wanted <==>
              PeeringName(clusterID, address) in seen && |clusterID| + |address| > 75
    {
      NotDesired(desired, nodes, clusterID, asn, address);
      LeftBehind(list, desired, seen, clusterID, wanted, address);
    }
  }

  // ---------------------------------------------------------------- the gauge

  function ManagedNames(s: Store, clusterID: string, ips: set<string>): set<string> {
    set name | name in s && IsOurPeering(name, clusterID) && s[name].peerIP in ips
  }

  ghost predicate NamesOneOf(name: string, ips: set<string>, clusterID: string) {
    exists ip :: ip in ips && IsAddress(ip) && name == PeeringName(clusterID, ip)
  }

  lemma {:induction false} NamesAndAddresses(ips: set<string>, clusterID: string, names: set<string>)
    requires forall ip :: ip in ips ==> IsAddress(ip)
    requires forall name :: name in names <==> NamesOneOf(name, ips, clusterID)
    ensures |names| == |ips|
  {
    if ips == {} {
      assert names == {};
    } else {
      var ip :| ip in ips;
      var name := PeeringName(clusterID, ip);
      forall other | other in ips - {ip} ensures PeeringName(clusterID, other) != name {
        PeeringNamesDistinct(clusterID, ip, other);
      }
      NamesAndAddresses(ips - {ip}, clusterID, names - {name});
      assert name in names;
    }
  }

  lemma GaugeExact(s: Store, nodes: seq<RouterNode>, clusterID: string, asn: int)
    requires Addressed(nodes) && ExactlyFor(Owned(s, clusterID), nodes, clusterID, asn)
    ensures |ManagedNames(s, clusterID, Addresses(nodes))| == |Addresses(nodes)|
  {
    var owned, names := Owned(s, clusterID), ManagedNames(s, clusterID, Addresses(nodes));
    forall name ensures name in names <==> NamesOneOf(name, Addresses(nodes), clusterID) {
      if name in names {
        assert name in owned;
        var n :| n in nodes && name == PeeringName(clusterID, n.privateIP);
        assert n.privateIP in Addresses(nodes);
      }
      if ip :| ip in Addresses(nodes) && IsAddress(ip) && name == PeeringName(clusterID, ip) {
        var n :| n in nodes && n.privateIP == ip;
        assert At(owned, name) == Some(Conn(ip, asn));
      }
    }
    NamesAndAddresses(Addresses(nodes), clusterID, names);
  }

  class Platform {
    const rs: RouteServer
    const clusterID: string
    const localASN: int
    var gauge: nat

    constructor (rs: RouteServer, clusterID: string, localASN: int)
      ensures this.rs == rs && this.clusterID == clusterID && this.localASN == localASN && gauge == 0
    {
      this.rs, this.clusterID, this.localASN, gauge := rs, clusterID, localASN, 0;
    }

    method DesiredPeers(nodes: seq<RouterNode>) returns (desired: seq<Peer>)
      requires Addressed(nodes)
      ensures IsDesired(desired, nodes, clusterID, localASN)
    {
      desired := [];
      for i := 0 to |nodes|
        invariant |desired| == i && forall j :: 0 <= j < i ==> desired[j] == PeerOf(nodes[j], clusterID, localASN)
      {
        desired := desired + [PeerOf(nodes[i], clusterID, localASN)];
      }
    }

    method AppendForeign(desired: seq<Peer>, current: seq<Peer>, ghost seen: Store) returns (list: seq<Peer>)
      requires Lists(current, seen)
      ensures Padded(list, desired, seen, clusterID)
    {
      list := desired;
      for i := 0 to |current|
        invariant forall p :: p in list <==> p in desired || (p in current[..i] && !IsOurPeering(p.name, clusterID))
      {
        assert current[..i + 1] == current[..i] + [current[i]];
        if !IsOurPeering(current[i].name, clusterID) { list := list + [current[i]]; }
      }
      assert current[..|current|] == current;
      forall p ensures p in list <==> p in desired || At(Foreign(seen, clusterID), p.name) == Some(p.conn) {
        assert Peer(p.name, p.conn) in current <==> At(seen, p.name) == Some(p.conn);
      }
    }

    /** Others may write between the two listings, leaving `meanwhile`: what they
        made of their own peerings is then put back to what was first listed. */
    method ReconcileOurPeerings(desired: seq<Peer>, meanwhile: Store)
      returns (changed: bool, ok: bool, ghost list: seq<Peer>, ghost wanted: Store)
      modifies rs
      ensures ok ==> Padded(list, desired, old(rs.conns), clusterID) && Wants(list, wanted) && rs.conns == wanted
      ensures ok && AllOurs(desired, clusterID) ==>
                && Foreign(rs.conns, clusterID) == Foreign(old(rs.conns), clusterID)
                && Wants(desired, Owned(rs.conns, clusterID))
      ensures old(rs.history) <= rs.history
      ensures AllOurs(desired, clusterID) && meanwhile == old(rs.conns) ==>
                && ForeignKept(rs.history[|old(rs.history)|..], old(rs.conns), clusterID)
                && Foreign(rs.conns, clusterID) == Foreign(old(rs.conns), clusterID)
      ensures OthersKept(rs.history[|old(rs.history)|..] + [rs.conns], old(rs.conns), meanwhile, clusterID,
                         NamesOf(desired))
      ensures changed <==> rs.written > old(rs.written)
      ensures meanwhile == wanted ==> rs.history == old(rs.history)
    {
      ghost var before := rs.conns;
      list, wanted := [], rs.conns;
      var listed, current := rs.ListPeers();
      if !listed { return false, false, list, wanted; }
      var padded := AppendForeign(desired, current, rs.conns);
      list := padded;
      rs.WrittenByOthers(meanwhile);
      changed, ok, wanted := rs.ReconcilePeers(padded);
      if ok || rs.history != old(rs.history) {
        OthersKeptBetween(list, desired, before, meanwhile, clusterID, wanted,
                          rs.history[|old(rs.history)|..] + [rs.conns]);
      }
      if AllOurs(desired, clusterID) && (ok || rs.history != old(rs.history)) {
        WantedForeign(list, desired, before, clusterID, wanted);
        if meanwhile == before {
          AllKeptBetween(before, wanted, rs.history[|old(rs.history)|..], clusterID);
          if !ok { KeptBetween(before, wanted, rs.conns, clusterID); }
        }
      }
    }

    method NodeIPs(nodes: seq<RouterNode>) returns (ips: set<string>)
      ensures ips == Addresses(nodes)
    {
      ips := {};
      for i := 0 to |nodes|
        invariant ips == Addresses(nodes[..i])
      {
        assert nodes[..i + 1] == nodes[..i] + [nodes[i]];
        ips := ips + {nodes[i].privateIP};
      }
      assert nodes[..|nodes|] == nodes;
    }

    method CountOwned(current: seq<Peer>, ips: set<string>) returns (managed: nat, ghost counted: set<string>)
      requires DistinctKeys(current, Name)
      ensures managed == |counted| && forall name :: name in counted <==> IsCounted(name, current, ips)
    {
      managed, counted := 0, {};
      for i := 0 to |current|
        invariant managed == |counted|
        invariant forall name :: name in counted <==> IsCounted(name, current[..i], ips)
      {
        OneMoreCounted(current, i, ips);
        if !IsOurPeering(current[i].name, clusterID) { continue; }
        if current[i].conn.peerIP in ips {
          managed := managed + 1;
          counted := counted + {current[i].name};
        }
      }
      assert current[..|current|] == current;
    }

    lemma OneMoreCounted(current: seq<Peer>, i: nat, ips: set<string>)
      requires DistinctKeys(current, Name) && i < |current|
      ensures !IsCounted(current[i].name, current[..i], ips)
      ensures forall name :: IsCounted(name, current[..i + 1], ips) <==>
                IsCounted(name, current[..i], ips) || (name == current[i].name
                && IsOurPeering(name, clusterID) && current[i].conn.peerIP in ips)
    {
      assert forall j :: 0 <= j < i ==> Name(current[j]) != Name(current[i]);
      assert current[..i + 1] == current[..i] + [current[i]];
    }

    method CountManagedPeers(nodes: seq<RouterNode>) returns (ok: bool, managed: nat)
      ensures ok ==> managed == |ManagedNames(rs.conns, clusterID, Addresses(nodes))|
    {
      managed := 0;
      var listed, current := rs.ListPeers();
      if !listed { return false, 0; }
      var desiredIPs := NodeIPs(nodes);
      ghost var counted;
      managed, counted := CountOwned(current, desiredIPs);
      CountedAll(current, rs.conns, desiredIPs, counted);
      return true, managed;
    }

    ghost predicate IsCounted(name: string, list: seq<Peer>, ips: set<string>) {
      IsOurPeering(name, clusterID) && exists p :: p in list && p.name == name && p.conn.peerIP in ips
    }

    lemma CountedAll(current: seq<Peer>, s: Store, ips: set<string>, counted: set<string>)
      requires Lists(current, s)
      requires forall name :: name in counted <==> IsCounted(name, current, ips)
      ensures counted == ManagedNames(s, clusterID, ips)
    {
      forall name ensures name in counted <==> name in ManagedNames(s, clusterID, ips) {
        if name in counted {
          var p :| p in current && p.name == name && p.conn.peerIP in ips;
          assert Peer(name, p.conn) in current;
          assert At(s, name) == Some(p.conn);
        }
        if name in ManagedNames(s, clusterID, ips) {
          assert At(s, name) == Some(s[name]);
          assert Peer(name, s[name]) in current;
        }
      }
    }

    /** No node means no instruction. Otherwise, on success, the cluster's own
        peerings are exactly its nodes' if and only if no name was trimmed, and
        with no name trimmed nothing else has changed at any point. */
    method ReconcileNodes(nodes: seq<RouterNode>, meanwhile: Store) returns (ok: bool)
      requires Addressed(nodes)
      modifies this, rs
      ensures old(rs.history) <= rs.history
      ensures nodes == [] ==> ok && rs.conns == old(rs.conns) && rs.history == old(rs.history) && gauge == old(gauge)
      ensures ok && nodes != [] ==>
                (ExactlyFor(Owned(rs.conns, clusterID), nodes, clusterID, localASN) <==> Untrimmed(nodes, clusterID))
      ensures Untrimmed(nodes, clusterID) && ok && nodes != [] ==>
                && Foreign(rs.conns, clusterID) == Foreign(old(rs.conns), clusterID)
                && gauge == |Addresses(nodes)|
      ensures ok && nodes != [] ==> OnlyTrimmedLeft(old(rs.conns), rs.conns, clusterID, Addresses(nodes))
      ensures ok && nodes != [] ==>
                Made(old(rs.conns), AskedFor(nodes, clusterID, localASN), rs.conns, clusterID)
      ensures OthersKept(rs.history[|old(rs.history)|..] + [rs.conns], old(rs.conns), meanwhile, clusterID,
                         AskedFor(nodes, clusterID, localASN).Keys)
      ensures Untrimmed(nodes, clusterID) && meanwhile == old(rs.conns) ==>
                && ForeignKept(rs.history[|old(rs.history)|..], old(rs.conns), clusterID)
                && Foreign(rs.conns, clusterID) == Foreign(old(rs.conns), clusterID)
      ensures Untrimmed(nodes, clusterID) && meanwhile == old(rs.conns)
              && ExactlyFor(Owned(old(rs.conns), clusterID), nodes, clusterID, localASN) && ok ==>
                rs.history == old(rs.history)
    {
      if |nodes| == 0 { return true; }
      ok := *;
      if !ok { return; }
      hide Made, OthersKept, OnlyTrimmedLeft, Padded, IsDesired, AskedFor, IsAddress, PeeringName, ExactlyFor;
      var desired := DesiredPeers(nodes);
      OwnNames(desired, nodes, clusterID, localASN);
      DesiredIsAsked(desired, nodes, clusterID, localASN);
      ghost var before := rs.conns;
      var changed;
      ghost var list, wanted;
      changed, ok, list, wanted := ReconcileOurPeerings(desired, meanwhile);
      if !ok { return; }
      WantedIsMade(list, desired, before, clusterID, wanted, AskedFor(nodes, clusterID, localASN));
      TrimmedLeft(list, desired, before, clusterID, wanted, nodes, localASN);
      if Untrimmed(nodes, clusterID) {
        NodesWant(desired, nodes, clusterID, localASN, Owned(rs.conns, clusterID));
        GaugeExact(rs.conns, nodes, clusterID, localASN);
        if ExactlyFor(Owned(before, clusterID), nodes, clusterID, localASN) {
          SameWanted(Owned(before, clusterID), Owned(wanted, clusterID), nodes, clusterID, localASN);
          Halves(before, wanted, clusterID);
        }
      } else if ExactlyFor(Owned(rs.conns, clusterID), nodes, clusterID, localASN) {
        TrimmedNotOwned(nodes, clusterID, localASN, rs.conns);
      }
      var managed;
      ok, managed := CountManagedPeers(nodes);
      if !ok { return; }
      gauge := managed;
    }

    /** Whatever the names: on success what is left is what was listed of others,
        and nothing of theirs is touched on the way. */
    method Cleanup(meanwhile: Store) returns (ok: bool)
      modifies this, rs
      ensures ok ==> rs.conns == Foreign(old(rs.conns), clusterID) && gauge == 0
      ensures ok ==> OnlyTrimmedLeft(old(rs.conns), rs.conns, clusterID, {})
      ensures ok ==> Made(old(rs.conns), map[], rs.conns, clusterID)
      ensures !ok ==> gauge == old(gauge)
      ensures old(rs.history) <= rs.history
      ensures OthersKept(rs.history[|old(rs.history)|..] + [rs.conns], old(rs.conns), meanwhile, clusterID, {})
      ensures meanwhile == old(rs.conns) ==>
                && ForeignKept(rs.history[|old(rs.history)|..], old(rs.conns), clusterID)
                && Foreign(rs.conns, clusterID) == Foreign(old(rs.conns), clusterID)
    {
      ghost var before := rs.conns;
      var changed;
      ghost var list, wanted;
      changed, ok, list, wanted := ReconcileOurPeerings([], meanwhile);
      if !ok { return; }
      WantedIsMade(list, [], before, clusterID, wanted, map[]);
      assert Owned(rs.conns, clusterID) == map[] by {
        assert forall name :: name in Owned(rs.conns, clusterID) ==> false;
      }
      assert Owned(Foreign(before, clusterID), clusterID) == map[];
      assert Foreign(Foreign(before, clusterID), clusterID) == Foreign(before, clusterID);
      Halves(rs.conns, Foreign(before, clusterID), clusterID);
      forall address | IsAddress(address)
        ensures PeeringName(clusterID, address) in wanted <==>
                PeeringName(clusterID, address) in before && |clusterID| + |address| > 75
      {
        LeftBehind(list, [], before, clusterID, wanted, address);
      }
      gauge := 0;
    }
  }
}
