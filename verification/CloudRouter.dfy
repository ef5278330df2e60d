/** Values shared by the GCP reconcilers. */
module GcpTypes {
  datatype RouterNode = RouterNode(name: string, selfLink: string, ip: string)

  datatype Topology = Topology(interfaceNames: seq<string>, interfaceIPs: seq<string>)
}

/** The peer list of a Cloud Router shared by several clusters. */
module CloudRouter {
  import opened Sorting
  import opened Sets
  import opened PeerNames
  import opened GcpTypes

  /** An element of the router's peer array, which is an array of pointers.
      `rest` stands for the fields the operator never sets. */
  datatype Entry =
    | Nil
    | Peer(name: string, ifaceName: string, peerIP: string, ifaceIP: string, asn: int, appliance: string,
           rest: string)

  function Name(p: Entry): string {
    if p.Nil? then "" else p.name
  }

  predicate Ours(digest: string -> string, cluster: string, p: Entry) {
    p.Peer? && IsOurPeer(digest, p.name, cluster)
  }

  /** The peers a cluster does not own, in order, holes dropped. */
  function Foreign(digest: string -> string, cluster: string, ps: seq<Entry>): seq<Entry> {
    if ps == [] then []
    else
      var rest := Foreign(digest, cluster, ps[..|ps| - 1]);
      var p := ps[|ps| - 1];
      if p.Peer? && !Ours(digest, cluster, p) then rest + [p] else rest
  }

  /** A cluster's own peers. */
  function Slice(digest: string -> string, cluster: string, ps: seq<Entry>): seq<Entry> {
    if ps == [] then []
    else
      var rest := Slice(digest, cluster, ps[..|ps| - 1]);
      var p := ps[|ps| - 1];
      if Ours(digest, cluster, p) then rest + [p] else rest
  }

  /** A peer as the comparison sees it: every field the operator writes. */
  function Key(p: Entry): Entry
    requires p.Peer?
  {
    p.(rest := "")
  }

  function Keys(ps: seq<Entry>): set<Entry> {
    set p | p in ps && p.Peer? :: Key(p)
  }

  // ----------------------------------------------------------- the desired list

  function PeerFor(digest: string -> string, cluster: string, node: RouterNode, topology: Topology, asn: int,
                   i: nat): Entry
    requires i < |topology.interfaceNames| && i < |topology.interfaceIPs|
  {
    Peer(PeerName(digest, cluster, node.ip, i), topology.interfaceNames[i], node.ip, topology.interfaceIPs[i],
         asn, node.selfLink, "")
  }

  function Interfaces(topology: Topology): nat {
    if |topology.interfaceNames| <= |topology.interfaceIPs| then |topology.interfaceNames|
    else |topology.interfaceIPs|
  }

  function NodePeers(digest: string -> string, cluster: string, node: RouterNode, topology: Topology, asn: int)
    : seq<Entry>
  {
    seq(Interfaces(topology), i requires 0 <= i < Interfaces(topology) =>
      PeerFor(digest, cluster, node, topology, asn, i))
  }

  function AllPeers(digest: string -> string, cluster: string, nodes: seq<RouterNode>, topology: Topology, asn: int)
    : seq<Entry>
  {
    if nodes == [] then []
    else
      AllPeers(digest, cluster, nodes[..|nodes| - 1], topology, asn)
      + NodePeers(digest, cluster, nodes[|nodes| - 1], topology, asn)
  }

  /** What desiredPeers may return: one peer per node and interface, by name. */
  ghost predicate IsDesired(ps: seq<Entry>, digest: string -> string, cluster: string, nodes: seq<RouterNode>,
                            topology: Topology, asn: int)
  {
    SortedBy(ps, Name) && multiset(ps) == multiset(AllPeers(digest, cluster, nodes, topology, asn))
  }

  method DesiredPeers(digest: string -> string, cluster: string, nodes: seq<RouterNode>, topology: Topology,
                      asn: int)
    returns (peers: seq<Entry>)
    ensures IsDesired(peers, digest, cluster, nodes, topology, asn)
  {
    peers := [];
    for n := 0 to |nodes|
      invariant peers == AllPeers(digest, cluster, nodes[..n], topology, asn)
    {
      ghost var before := peers;
      var node := nodes[n];
      var ifaceIdx := 0;
      while ifaceIdx < |topology.interfaceNames|
        invariant 0 <= ifaceIdx <= Interfaces(topology)
        invariant peers == before + NodePeers(digest, cluster, node, topology, asn)[..ifaceIdx]
      {
        if ifaceIdx >= |topology.interfaceIPs| { break; }
        peers := peers + [Peer(PeerName(digest, cluster, node.ip, ifaceIdx), topology.interfaceNames[ifaceIdx],
                               node.ip, topology.interfaceIPs[ifaceIdx], asn, node.selfLink, "")];
        ifaceIdx := ifaceIdx + 1;
      }
      assert nodes[..n + 1][..n] == nodes[..n];
      var all := NodePeers(digest, cluster, node, topology, asn);
      assert all[..|all|] == all;
    }
    assert nodes[..|nodes|] == nodes;
    peers := SortBy(peers, Name);
  }

  // ------------------------------------------------------------ merge and compare

  ghost predicate IsMerge(out: seq<Entry>, digest: string -> string, cluster: string, existing: seq<Entry>,
                          desired: seq<Entry>)
  {
    && SortedBy(out, Name)
    && multiset(out) == multiset(Foreign(digest, cluster, existing)) + multiset(desired)
  }

  method MergePeers(digest: string -> string, existing: seq<Entry>, desired: seq<Entry>, cluster: string)
    returns (out: seq<Entry>)
    requires forall p :: p in desired ==> p.Peer?
    ensures IsMerge(out, digest, cluster, existing, desired)
    ensures |out| == |Foreign(digest, cluster, existing)| + |desired|
  {
    out := [];
    for i := 0 to |existing|
      invariant out == Foreign(digest, cluster, existing[..i])
    {
      assert existing[..i + 1][..i] == existing[..i];
      var p := existing[i];
      if p != Nil && !IsOurPeer(digest, p.name, cluster) {
        out := out + [p];
      }
    }
    assert existing[..|existing|] == existing;
    out := out + desired;
    ghost var unsorted := out;
    out := SortBy(out, Name);
    PermutationSameElements(out, unsorted);
  }

  method BuildPeerSet(peers: seq<Entry>) returns (s: set<Entry>)
    ensures s == Keys(peers)
  {
    s := {};
    for i := 0 to |peers|
      invariant s == Keys(peers[..i])
    {
      var p := peers[i];
      assert peers[..i + 1] == peers[..i] + [p];
      if p == Nil { continue; }
      s := s + {Key(p)};
    }
    assert peers[..|peers|] == peers;
  }

  method PeerSetEqual(a: set<Entry>, b: set<Entry>) returns (equal: bool)
    ensures equal <==> a == b
  {
    if |a| != |b| { return false; }
    var todo := a;
    while todo != {}
      invariant todo <= a && a - todo <= b
    {
      var k :| k in todo;
      if k !in b { return false; }
      todo := todo - {k};
    }
    SubsetOfSameSize(a, b);
    return true;
  }

  // -------------------------------------------------------------------- one step

  /** A write of the peer array through a merge patch (RFC 7396, section 2). The
      client omits an empty array from the patch, and a member a patch does not
      mention stays as it is. */
  function Patched(before: seq<Entry>, written: seq<Entry>): seq<Entry> {
    if written == [] then before else written
  }

  /** One ReconcilePeers that ran to its end, for the given desired list. */
  ghost predicate ReconcileStep(digest: string -> string, cluster: string, desired: seq<Entry>,
                                before: seq<Entry>, after: seq<Entry>, changed: bool)
  {
    var foreign := Foreign(digest, cluster, before);
    changed == (Keys(before) != Keys(foreign + desired)) &&
    if !changed then after == before
    else if foreign + desired == [] then after == Patched(before, [])
    else IsMerge(after, digest, cluster, before, desired)
  }

  /** One ClearPeers that ran to its end. It writes with an update, which
      replaces the array whatever it holds. */
  ghost predicate ClearStep(digest: string -> string, cluster: string,
                            before: seq<Entry>, after: seq<Entry>, changed: bool)
  {
    changed == (|Foreign(digest, cluster, before)| != |before|) &&
    if !changed then after == before
    else IsMerge(after, digest, cluster, before, [])
  }

  class Router {
    var bgpPeers: seq<Entry>

    constructor (peers: seq<Entry>)
      ensures bgpPeers == peers
    {
      bgpPeers := peers;
    }

    /** ok is false when a call failed: before the write, so that nothing has
        changed, or while waiting for it, so that it may have been carried out. */
    method ReconcilePeers(digest: string -> string, cluster: string, nodes: seq<RouterNode>, topology: Topology,
                          asn: int)
      returns (changed: bool, ok: bool, ghost desired: seq<Entry>)
      modifies this
      ensures ok || bgpPeers != old(bgpPeers) ==>
                && IsDesired(desired, digest, cluster, nodes, topology, asn)
                && ReconcileStep(digest, cluster, desired, old(bgpPeers), bgpPeers, changed || !ok)
      ensures !ok ==> !changed
    {
      if * { return false, false, []; }
      var ours := DesiredPeers(digest, cluster, nodes, topology, asn);
      AllPeersAreOurs(digest, cluster, nodes, topology, asn);
      PermutationSameElements(ours, AllPeers(digest, cluster, nodes, topology, asn));
      var merged := MergePeers(digest, bgpPeers, ours, cluster);
      MergedKeys(merged, digest, cluster, bgpPeers, ours);
      var currentSet := BuildPeerSet(bgpPeers);
      var desiredSet := BuildPeerSet(merged);
      var same := PeerSetEqual(currentSet, desiredSet);
      if same { return false, true, ours; }
      if * { return false, false, ours; }
      bgpPeers := Patched(bgpPeers, merged);
      assert merged == [] <==> Foreign(digest, cluster, old(bgpPeers)) + ours == [];
      if * { return false, false, ours; }
      return true, true, ours;
    }

    method ClearPeers(digest: string -> string, cluster: string) returns (changed: bool, ok: bool)
      modifies this
      ensures ok ==> ClearStep(digest, cluster, old(bgpPeers), bgpPeers, changed)
      ensures !ok ==> !changed && (bgpPeers == old(bgpPeers)
                                   || ClearStep(digest, cluster, old(bgpPeers), bgpPeers, true))
    {
      if * { return false, false; }
      var kept := MergePeers(digest, bgpPeers, [], cluster);
      if |kept| == |bgpPeers| { return false, true; }
      if * { return false, false; }
      bgpPeers := kept;
      if * { return false, false; }
      return true, true;
    }
  }

  // ------------------------------------------------------------- counting peers

  lemma {:induction false} ForeignCount(digest: string -> string, cluster: string, ps: seq<Entry>, p: Entry)
    ensures multiset(Foreign(digest, cluster, ps))[p] ==
            if p.Peer? && !Ours(digest, cluster, p) then multiset(ps)[p] else 0
  {
    if ps != [] {
      ForeignCount(digest, cluster, ps[..|ps| - 1], p);
      assert ps == ps[..|ps| - 1] + [ps[|ps| - 1]];
    }
  }

  lemma {:induction false} SliceCount(digest: string -> string, cluster: string, ps: seq<Entry>, p: Entry)
    ensures multiset(Slice(digest, cluster, ps))[p] == if Ours(digest, cluster, p) then multiset(ps)[p] else 0
  {
    if ps != [] {
      SliceCount(digest, cluster, ps[..|ps| - 1], p);
      assert ps == ps[..|ps| - 1] + [ps[|ps| - 1]];
    }
  }

  lemma MembersOf(digest: string -> string, cluster: string, ps: seq<Entry>)
    ensures forall p :: p in Foreign(digest, cluster, ps) <==> p in ps && p.Peer? && !Ours(digest, cluster, p)
    ensures forall p :: p in Slice(digest, cluster, ps) <==> p in ps && Ours(digest, cluster, p)
  {
    forall p
      ensures p in Foreign(digest, cluster, ps) <==> p in ps && p.Peer? && !Ours(digest, cluster, p)
      ensures p in Slice(digest, cluster, ps) <==> p in ps && Ours(digest, cluster, p)
    {
      ForeignCount(digest, cluster, ps, p);
      SliceCount(digest, cluster, ps, p);
      assert p in ps <==> multiset(ps)[p] > 0;
      assert p in Foreign(digest, cluster, ps) <==> multiset(Foreign(digest, cluster, ps))[p] > 0;
      assert p in Slice(digest, cluster, ps) <==> multiset(Slice(digest, cluster, ps))[p] > 0;
    }
  }

  lemma MergedKeys(out: seq<Entry>, digest: string -> string, cluster: string, existing: seq<Entry>,
                   desired: seq<Entry>)
    requires IsMerge(out, digest, cluster, existing, desired)
    ensures Keys(out) == Keys(Foreign(digest, cluster, existing) + desired)
    ensures forall p :: p in out <==> p in Foreign(digest, cluster, existing) || p in desired
  {
    var all := Foreign(digest, cluster, existing) + desired;
    assert multiset(out) == multiset(all);
    PermutationSameElements(out, all);
  }

  lemma {:induction false} AllPeersAreOurs(digest: string -> string, cluster: string, nodes: seq<RouterNode>,
                                           topology: Topology, asn: int)
    ensures forall p :: p in AllPeers(digest, cluster, nodes, topology, asn) ==>
              Ours(digest, cluster, p) && p.rest == "" && exists n, i: nat ::
                && n in nodes && i < Interfaces(topology)
                && p == PeerFor(digest, cluster, n, topology, asn, i)
  {
    if nodes != [] {
      var last := nodes[|nodes| - 1];
      AllPeersAreOurs(digest, cluster, nodes[..|nodes| - 1], topology, asn);
      forall i: nat | i < Interfaces(topology)
        ensures Ours(digest, cluster, PeerFor(digest, cluster, last, topology, asn, i))
      {
        OwnPeerRecognised(digest, cluster, last.ip, i);
      }
      forall p | p in NodePeers(digest, cluster, last, topology, asn)
        ensures exists i: nat :: i < Interfaces(topology) && p == PeerFor(digest, cluster, last, topology, asn, i)
      {}
    }
  }
}
