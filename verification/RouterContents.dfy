/** What the peers on a Cloud Router say, field by field. */
module RouterContents {
  import opened Text
  import opened Sorting
  import opened PeerNames
  import opened GcpTypes
  import opened CloudRouter
  import opened SharedRouter

  // --------------------------------------------------------------------- the name

  /** What stands at the front of a cluster's peer names. */
  function Front(digest: string -> string, cluster: string): string {
    if |cluster| <= 30 then cluster + "-bgp-" else (cluster + "-bgp")[..25] + "-" + digest(cluster) + "-"
  }

  lemma FrontIsMark(digest: string -> string, cluster: string)
    ensures Front(digest, cluster) == OwnerMark(digest, cluster)
  {
    if |cluster| <= 30 { assert cluster + "-bgp" + "-" == cluster + "-bgp-"; }
  }

  /** A letter of an address as a name has it: capitals made small, which stand 32
      places on, and a dash for what is neither letter nor digit. */
  predicate Becomes(c: char, d: char) {
    if 'A' <= c <= 'Z' then d as int == c as int + 32
    else if 'a' <= c <= 'z' || '0' <= c <= '9' then d == c
    else d == '-'
  }

  lemma TokenReads(address: string)
    ensures |AddressToken(address)| == |address|
    ensures forall i :: 0 <= i < |address| ==> Becomes(address[i], AddressToken(address)[i])
  {}

  /** A name made of three parts, read back. */
  predicate MadeOf(name: string, front: string, middle: string, tail: string) {
    && |name| == |front| + |middle| + 1 + |tail|
    && name[..|front|] == front && name[|front|..|front| + |middle|] == middle
    && name[|front| + |middle|] == '-' && name[|front| + |middle| + 1..] == tail
  }

  lemma Parts(front: string, middle: string, tail: string)
    ensures MadeOf(front + (middle + "-" + tail), front, middle, tail)
  {}

  /** A peer name is the front, then the address letter by letter where there is room
      for it in 63 places and its digest where there is not, a dash, and the index. */
  lemma PeerNameReads(digest: string -> string, cluster: string, address: string, index: nat)
    ensures var name, front, tail := PeerName(digest, cluster, address, index), Front(digest, cluster), Itoa(index);
            && |front| + |tail| < |name|
            && var middle := name[|front|..|name| - |tail| - 1];
               && MadeOf(name, front, middle, tail)
               && if |front| + |address| + 1 + |tail| <= 63 then
                    |middle| == |address| && forall i :: 0 <= i < |address| ==> Becomes(address[i], middle[i])
                  else middle == digest(address)
  {
    var front, tail, token := Front(digest, cluster), Itoa(index), AddressToken(address);
    FrontIsMark(digest, cluster);
    NameIsMarkAndRest(digest, cluster, address, index);
    TokenReads(address);
    Parts(front, if Abbreviated(digest, cluster, address, index) then digest(address) else token, tail);
    hide Front, AddressToken, Itoa, Becomes, PeerName, PeerPrefix;
  }

  // --------------------------------------------------------------------- the peers

  /** Two peers alike in all the operator writes. */
  predicate Alike(p: Entry, q: Entry) {
    && p.Peer? && q.Peer?
    && p.name == q.name && p.ifaceName == q.ifaceName && p.peerIP == q.peerIP && p.ifaceIP == q.ifaceIP
    && p.asn == q.asn && p.appliance == q.appliance
  }

  /** The comparison takes two peers for one exactly when they agree in the name, the
      interface, both addresses, the ASN and the instance. */
  lemma ComparedExactly(p: Entry, q: Entry)
    requires p.Peer? && q.Peer?
    ensures Key(p) == Key(q) <==>
            && p.name == q.name && p.ifaceName == q.ifaceName && p.peerIP == q.peerIP && p.ifaceIP == q.ifaceIP
            && p.asn == q.asn && p.appliance == q.appliance
  {}

  ghost predicate AllIn(ps: seq<Entry>, qs: seq<Entry>) {
    forall p :: p in ps && p.Peer? ==> exists q :: q in qs && Alike(p, q)
  }

  lemma SubsetExactly(ps: seq<Entry>, qs: seq<Entry>)
    ensures AllIn(ps, qs) <==> Keys(ps) <= Keys(qs)
  {
    if AllIn(ps, qs) {
      forall k | k in Keys(ps) ensures k in Keys(qs) {
        var p :| p in ps && p.Peer? && Key(p) == k;
        var q :| q in qs && Alike(p, q);
        ComparedExactly(p, q);
      }
    }
    if Keys(ps) <= Keys(qs) {
      forall p | p in ps && p.Peer? ensures exists q :: q in qs && Alike(p, q) {
        assert Key(p) in Keys(ps);
        var q :| q in qs && q.Peer? && Key(q) == Key(p);
        ComparedExactly(p, q);
      }
    }
  }

  /** The peer one node has on one interface. */
  predicate Serves(p: Entry, digest: string -> string, cluster: string, n: RouterNode, t: Topology, asn: int, i: nat) {
    && p.Peer? && i < |t.interfaceNames| && i < |t.interfaceIPs|
    && p.name == PeerName(digest, cluster, n.ip, i)
    && p.ifaceName == t.interfaceNames[i] && p.ifaceIP == t.interfaceIPs[i]
    && p.peerIP == n.ip && p.appliance == n.selfLink && p.asn == asn
  }

  /** Every peer is some node's on some interface. */
  ghost predicate OnlyServe(ps: seq<Entry>, digest: string -> string, cluster: string, nodes: seq<RouterNode>,
                            t: Topology, asn: int) {
    forall p :: p in ps ==> exists n, i: nat :: n in nodes && Serves(p, digest, cluster, n, t, asn, i)
  }

  ghost predicate Served(ps: seq<Entry>, digest: string -> string, cluster: string, n: RouterNode, t: Topology,
                         asn: int, i: nat) {
    i < |t.interfaceNames| && i < |t.interfaceIPs| ==> exists p :: p in ps && Serves(p, digest, cluster, n, t, asn, i)
  }

  /** Every node has one on every interface that has a name and an address. */
  ghost predicate AllServed(ps: seq<Entry>, digest: string -> string, cluster: string, nodes: seq<RouterNode>,
                            t: Topology, asn: int) {
    forall n, i: nat :: n in nodes ==> Served(ps, digest, cluster, n, t, asn, i)
  }

  lemma {:induction false} AllPeersServe(digest: string -> string, cluster: string, nodes: seq<RouterNode>,
                                         t: Topology, asn: int)
    ensures AllServed(AllPeers(digest, cluster, nodes, t, asn), digest, cluster, nodes, t, asn)
  {
    if nodes != [] {
      var most, last := nodes[..|nodes| - 1], nodes[|nodes| - 1];
      var earlier, mine := AllPeers(digest, cluster, most, t, asn), NodePeers(digest, cluster, last, t, asn);
      AllPeersServe(digest, cluster, most, t, asn);
      assert nodes == most + [last];
      forall n, i: nat | n in nodes && i < |t.interfaceNames| && i < |t.interfaceIPs|
        ensures Served(earlier + mine, digest, cluster, n, t, asn, i)
      {
        if n == last {
          assert mine[i] in mine && Serves(mine[i], digest, cluster, n, t, asn, i);
        } else {
          assert Served(earlier, digest, cluster, n, t, asn, i);
        }
      }
    }
  }

  /** What desiredPeers returns, peer by peer and node by node. */
  lemma DesiredFields(ps: seq<Entry>, digest: string -> string, cluster: string, nodes: seq<RouterNode>,
                      t: Topology, asn: int)
    requires IsDesired(ps, digest, cluster, nodes, t, asn)
    ensures OnlyServe(ps, digest, cluster, nodes, t, asn) && AllServed(ps, digest, cluster, nodes, t, asn)
  {
    var all := AllPeers(digest, cluster, nodes, t, asn);
    PermutationSameElements(ps, all);
    AllPeersAreOurs(digest, cluster, nodes, t, asn);
    AllPeersServe(digest, cluster, nodes, t, asn);
    forall p | p in ps ensures exists n, i: nat :: n in nodes && Serves(p, digest, cluster, n, t, asn, i) {
      var n, i: nat :| n in nodes && i < Interfaces(t) && p == PeerFor(digest, cluster, n, t, asn, i);
      assert Serves(p, digest, cluster, n, t, asn, i);
    }
    forall n, i: nat | n in nodes ensures Served(ps, digest, cluster, n, t, asn, i) {
      assert Served(all, digest, cluster, n, t, asn, i);
    }
  }

  /** A finished call whose patch is not lost leaves, of the cluster's own peers, one
      for each node and usable interface, at the node's address, on the interface's
      name and address, with the ASN and the instance, and no other; and it reports
      a change if and only if it found anything else. */
  lemma RouterServes(digest: string -> string, cluster: string, nodes: seq<RouterNode>, t: Topology, asn: int,
                     desired: seq<Entry>, before: seq<Entry>, after: seq<Entry>, changed: bool)
    requires IsDesired(desired, digest, cluster, nodes, t, asn)
    requires ReconcileStep(digest, cluster, desired, before, after, changed)
    ensures var was := Slice(digest, cluster, before);
            changed <==> !(OnlyServe(was, digest, cluster, nodes, t, asn)
                           && AllServed(was, digest, cluster, nodes, t, asn))
    ensures desired != [] || Foreign(digest, cluster, before) != [] || Slice(digest, cluster, before) == [] ==>
              && OnlyServe(Slice(digest, cluster, after), digest, cluster, nodes, t, asn)
              && AllServed(Slice(digest, cluster, after), digest, cluster, nodes, t, asn)
  {
    DesiredIsOwnList(desired, digest, cluster, nodes, t, asn);
    ReconcileReaches(digest, cluster, desired, before, after, changed);
    DesiredFields(desired, digest, cluster, nodes, t, asn);
    MembersOf(digest, cluster, before);
    MembersOf(digest, cluster, after);
    hide OnlyServe, AllServed, Keys, Slice, Foreign, ReconcileStep, IsDesired;
    ServesExactly(Slice(digest, cluster, before), desired, digest, cluster, nodes, t, asn);
    ServesExactly(Slice(digest, cluster, after), desired, digest, cluster, nodes, t, asn);
  }

  /** Any list of the cluster's peers serves the nodes exactly when it is the desired
      one to the comparison. */
  lemma ServesExactly(ps: seq<Entry>, desired: seq<Entry>, digest: string -> string, cluster: string,
                      nodes: seq<RouterNode>, t: Topology, asn: int)
    requires OnlyServe(desired, digest, cluster, nodes, t, asn) && AllServed(desired, digest, cluster, nodes, t, asn)
    requires forall p :: p in ps ==> p.Peer?
    ensures Keys(ps) == Keys(desired) <==>
            OnlyServe(ps, digest, cluster, nodes, t, asn) && AllServed(ps, digest, cluster, nodes, t, asn)
  {
    SubsetExactly(ps, desired);
    SubsetExactly(desired, ps);
    hide PeerName, Keys;
    if AllIn(ps, desired) && AllIn(desired, ps) {
      ServesLike(ps, desired, digest, cluster, nodes, t, asn);
      ServesLike(desired, ps, digest, cluster, nodes, t, asn);
    }
    if OnlyServe(ps, digest, cluster, nodes, t, asn) && AllServed(ps, digest, cluster, nodes, t, asn) {
      BothServe(ps, desired, digest, cluster, nodes, t, asn);
      BothServe(desired, ps, digest, cluster, nodes, t, asn);
    }
  }

  lemma ServesLike(ps: seq<Entry>, qs: seq<Entry>, digest: string -> string, cluster: string,
                   nodes: seq<RouterNode>, t: Topology, asn: int)
    requires AllIn(ps, qs) && forall p :: p in ps ==> p.Peer?
    ensures OnlyServe(qs, digest, cluster, nodes, t, asn) ==> OnlyServe(ps, digest, cluster, nodes, t, asn)
    ensures AllServed(ps, digest, cluster, nodes, t, asn) ==> AllServed(qs, digest, cluster, nodes, t, asn)
  {
    hide PeerName;
    if OnlyServe(qs, digest, cluster, nodes, t, asn) {
      forall p | p in ps ensures exists n, i: nat :: n in nodes && Serves(p, digest, cluster, n, t, asn, i) {
        var q :| q in qs && Alike(p, q);
        var n, i: nat :| n in nodes && Serves(q, digest, cluster, n, t, asn, i);
        assert Serves(p, digest, cluster, n, t, asn, i);
      }
    }
    if AllServed(ps, digest, cluster, nodes, t, asn) {
      forall n, i: nat | n in nodes ensures Served(qs, digest, cluster, n, t, asn, i) {
        assert Served(ps, digest, cluster, n, t, asn, i);
        if p :| p in ps && Serves(p, digest, cluster, n, t, asn, i) {
          var q :| q in qs && Alike(p, q);
          assert Serves(q, digest, cluster, n, t, asn, i);
        }
      }
    }
  }

  lemma BothServe(ps: seq<Entry>, qs: seq<Entry>, digest: string -> string, cluster: string,
                  nodes: seq<RouterNode>, t: Topology, asn: int)
    requires OnlyServe(ps, digest, cluster, nodes, t, asn) && AllServed(qs, digest, cluster, nodes, t, asn)
    ensures AllIn(ps, qs)
  {
    hide PeerName;
    forall p | p in ps && p.Peer? ensures exists q :: q in qs && Alike(p, q) {
      var n, i: nat :| n in nodes && Serves(p, digest, cluster, n, t, asn, i);
      assert Served(qs, digest, cluster, n, t, asn, i);
      var q :| q in qs && Serves(q, digest, cluster, n, t, asn, i);
      assert Alike(p, q);
    }
  }
}
