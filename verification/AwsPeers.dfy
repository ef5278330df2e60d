/** VPC Route Server peers as EC2 lists them, and what reconciling one endpoint
    makes of the list. */
module AwsPeers {
  import opened Options
  import opened Labels

  const TAG_KEY := "managed-by"

  datatype PeerState = Pending | Available | Deleting | Deleted | Failing | Failed

  /** A listed peer. EC2 may leave the identifier or the address out. */
  datatype Peer = Peer(id: Option<nat>, endpoint: string, address: Option<string>, state: PeerState,
                       tags: LabelMap, asn: int, bfd: bool)

  function PeerTags(cluster: string): LabelMap {
    map[TAG_KEY := "bgp-cloud-connector/" + cluster]
  }

  lemma TagsDistinct(a: string, b: string)
    ensures PeerTags(a)[TAG_KEY] == PeerTags(b)[TAG_KEY] <==> a == b
  {
    var mark := "bgp-cloud-connector/";
    assert (mark + a)[|mark|..] == a && (mark + b)[|mark|..] == b;
  }

  predicate HasTag(p: Peer, cluster: string) {
    TAG_KEY in p.tags && p.tags[TAG_KEY] == PeerTags(cluster)[TAG_KEY]
  }

  /** Neither on its way out nor gone. */
  predicate Alive(p: Peer) {
    p.state != Deleting && p.state != Deleted
  }

  predicate Whole(p: Peer) {
    p.id.Some? && p.address.Some?
  }

  /** A managed peer that holds its address on the endpoint: a deleting one
      still does, a deleted one does not. */
  predicate Holds(p: Peer, e: string, cluster: string) {
    p.endpoint == e && HasTag(p, cluster) && Whole(p) && p.state != Deleted
  }

  predicate Adoptable(p: Peer, e: string) {
    p.endpoint == e && Whole(p) && Alive(p)
  }

  ghost predicate UniqueIds(ps: seq<Peer>) {
    forall i, j :: 0 <= i < j < |ps| && ps[i].id.Some? ==> ps[i].id != ps[j].id
  }

  /** The last listed holder of an address; -1 if there is none. */
  function LastHolder(ps: seq<Peer>, e: string, cluster: string, ip: string): (i: int)
    ensures -1 <= i < |ps|
    ensures i >= 0 ==> Holds(ps[i], e, cluster) && ps[i].address == Some(ip)
    ensures forall j :: i < j < |ps| && Holds(ps[j], e, cluster) ==> ps[j].address != Some(ip)
  {
    if ps == [] then -1
    else
      var n := |ps| - 1;
      if Holds(ps[n], e, cluster) && ps[n].address == Some(ip) then n else LastHolder(ps[..n], e, cluster, ip)
  }

  function LastAdoptable(ps: seq<Peer>, e: string, ip: string): (i: int)
    ensures -1 <= i < |ps|
    ensures i >= 0 ==> Adoptable(ps[i], e) && ps[i].address == Some(ip)
    ensures forall j :: i < j < |ps| && Adoptable(ps[j], e) ==> ps[j].address != Some(ip)
  {
    if ps == [] then -1
    else
      var n := |ps| - 1;
      if Adoptable(ps[n], e) && ps[n].address == Some(ip) then n else LastAdoptable(ps[..n], e, ip)
  }

  /** What the pass asks for on one endpoint: whose it is, the addresses, and how
      a new peer is configured. */
  datatype Wanted = Wanted(endpoint: string, cluster: string, ips: set<string>, asn: int, bfd: bool)

  /** What becomes of a listed peer: a holder of an address nobody wants is
      deleted, a live peer at a wanted address nobody holds is tagged, and every
      other peer is left alone. */
  function Treated(ps: seq<Peer>, w: Wanted, i: nat): Peer
    requires i < |ps|
  {
    var p := ps[i];
    if p.address.None? then p
    else
      var ip := p.address.value;
      var holder := LastHolder(ps, w.endpoint, w.cluster, ip);
      if ip !in w.ips && holder == i && p.state != Deleting then p.(state := Deleting)
      else if ip in w.ips && holder == -1 && LastAdoptable(ps, w.endpoint, ip) == i then
        p.(tags := p.tags + PeerTags(w.cluster))
      else p
  }

  /** A wanted address for which there is no peer to keep or adopt. */
  predicate Needed(ps: seq<Peer>, w: Wanted, ip: string) {
    && ip in w.ips
    && LastHolder(ps, w.endpoint, w.cluster, ip) == -1 && LastAdoptable(ps, w.endpoint, ip) == -1
  }

  function NewPeer(id: nat, w: Wanted, ip: string): Peer {
    Peer(Some(id), w.endpoint, Some(ip), Pending, PeerTags(w.cluster), w.asn, w.bfd)
  }

  predicate IsNew(p: Peer, w: Wanted) {
    Whole(p) && p == NewPeer(p.id.value, w, p.address.value)
  }

  /** The tag that marks a peer as a cluster's own. */
  lemma TagReads(p: Peer, cluster: string)
    ensures HasTag(p, cluster) <==>
            "managed-by" in p.tags && p.tags["managed-by"] == "bgp-cloud-connector/" + cluster
  {}

  lemma AliveReads(p: Peer)
    ensures Alive(p) <==> p.state in {Pending, Available, Failing, Failed}
  {}

  predicate Untreated(p: Peer, todo: set<string>) {
    p.address.Some? && p.address.value in todo
  }

  /** The list after a pass over one endpoint has dealt with every address
      outside `todo`: listed peers are treated or still as they were, and each
      needed address has exactly one new peer. */
  ghost predicate Progress(before: seq<Peer>, after: seq<Peer>, w: Wanted, todo: set<string>) {
    && |before| <= |after| && UniqueIds(after)
    && (forall i :: 0 <= i < |before| ==>
          after[i] == if Untreated(before[i], todo) then before[i] else Treated(before, w, i))
    && (forall i :: |before| <= i < |after| ==>
          IsNew(after[i], w) && Needed(before, w, after[i].address.value) && after[i].address.value !in todo)
    && (forall ip :: Needed(before, w, ip) && ip !in todo ==>
          exists i :: |before| <= i < |after| && after[i].address == Some(ip))
    && (forall i, j :: |before| <= i < j < |after| ==> after[i].address != after[j].address)
  }

  /** A call the operator made, with its target as EC2 had it at that moment. */
  datatype Call =
    | DeleteCall(target: Peer)
    | TagCall(target: Peer)
    | CreateCall(endpoint: string, ip: string)

  /** No delete for a peer that is going or gone, or without the tag; no tag for
      one that is going or gone. */
  ghost predicate Safe(calls: seq<Call>, cluster: string) {
    forall c :: c in calls ==>
      match c
      case DeleteCall(p) => Alive(p) && HasTag(p, cluster)
      case TagCall(p) => Alive(p)
      case CreateCall(_, _) => true
  }
}

/** EC2, as far as the operator calls it. */
module Ec2Api {
  import opened Options
  import opened AwsPeers

  class Ec2 {
    var peers: seq<Peer>
    var nextId: nat
    /** Deletes and tags EC2 turned down for the state of their target. */
    ghost var refusals: nat
    ghost var calls: seq<Call>

    constructor (ps: seq<Peer>, next: nat)
      requires UniqueIds(ps) && forall p :: p in ps && p.id.Some? ==> p.id.value < next
      ensures peers == ps && nextId == next && refusals == 0 && calls == [] && Valid()
    {
      peers, nextId, refusals, calls := ps, next, 0, [];
    }

    ghost predicate Valid()
      reads this
    {
      UniqueIds(peers) && forall p :: p in peers && p.id.Some? ==> p.id.value < nextId
    }

    method Find(id: nat) returns (i: int)
      ensures -1 <= i < |peers|
      ensures i >= 0 ==> peers[i].id == Some(id)
      ensures i == -1 ==> forall p :: p in peers ==> p.id != Some(id)
    {
      i := 0;
      while i < |peers|
        invariant 0 <= i <= |peers|
        invariant forall j :: 0 <= j < i ==> peers[j].id != Some(id)
      {
        if peers[i].id == Some(id) { return; }
        i := i + 1;
      }
      return -1;
    }

    /** Refuses a peer that is deleting or deleted. On any other it may fail, with
        or without having taken effect. */
    method DeletePeer(id: nat, ghost k: nat) returns (ok: bool)
      requires Valid() && k < |peers| && peers[k].id == Some(id)
      modifies this
      ensures Valid() && nextId == old(nextId) && calls == old(calls) + [DeleteCall(old(peers)[k])]
      ensures !Alive(old(peers)[k]) ==> !ok && peers == old(peers) && refusals == old(refusals) + 1
      ensures Alive(old(peers)[k]) ==>
                && refusals == old(refusals)
                && (peers == old(peers)[k := old(peers)[k].(state := Deleting)] || (!ok && peers == old(peers)))
    {
      calls := calls + [DeleteCall(peers[k])];
      var i := Find(id);
      assert peers[k] in peers && i == k;
      if !Alive(peers[i]) {
        refusals := refusals + 1;
        return false;
      }
      if * { return false; }
      peers := peers[i := peers[i].(state := Deleting)];
      ok := *;
    }

    method CreateTags(id: nat, cluster: string, ghost k: nat) returns (ok: bool)
      requires Valid() && k < |peers| && peers[k].id == Some(id)
      modifies this
      ensures Valid() && nextId == old(nextId) && calls == old(calls) + [TagCall(old(peers)[k])]
      ensures refusals == old(refusals)
      ensures peers == old(peers)[k := old(peers)[k].(tags := old(peers)[k].tags + PeerTags(cluster))]
              || (!ok && peers == old(peers))
    {
      calls := calls + [TagCall(peers[k])];
      var i := Find(id);
      assert peers[k] in peers && i == k;
      if * { return false; }
      peers := peers[i := peers[i].(tags := peers[i].tags + PeerTags(cluster))];
      ok := *;
    }

    method CreatePeer(w: Wanted, ip: string) returns (ok: bool)
      requires Valid()
      modifies this
      ensures Valid() && calls == old(calls) + [CreateCall(w.endpoint, ip)] && refusals == old(refusals)
      ensures (peers == old(peers) + [NewPeer(old(nextId), w, ip)] && nextId == old(nextId) + 1)
              || (!ok && peers == old(peers) && nextId == old(nextId))
    {
      calls := calls + [CreateCall(w.endpoint, ip)];
      if * { return false; }
      peers := peers + [NewPeer(nextId, w, ip)];
      nextId := nextId + 1;
      ok := *;
    }
  }
}
