/** Facts about the list of peers while one endpoint is being reconciled. */
module AwsEndpoint {
  import opened Options
  import opened AwsPeers

  // ------------------------------------------------------------ what the loops build

  /** listManagedPeers. */
  function Managed(ps: seq<Peer>, e: string, cluster: string): seq<Peer> {
    if ps == [] then []
    else
      var p := ps[|ps| - 1];
      Managed(ps[..|ps| - 1], e, cluster) + if p.endpoint == e && HasTag(p, cluster) then [p] else []
  }

  /** listAllPeers. */
  function OnEndpoint(ps: seq<Peer>, e: string): seq<Peer> {
    if ps == [] then []
    else
      var p := ps[|ps| - 1];
      OnEndpoint(ps[..|ps| - 1], e) + if p.endpoint == e then [p] else []
  }

  function ManagedMap(list: seq<Peer>): map<string, nat> {
    if list == [] then map[]
    else
      var p, m := list[|list| - 1], ManagedMap(list[..|list| - 1]);
      if Whole(p) && p.state != Deleted then m[p.address.value := p.id.value] else m
  }

  function DeletingIds(list: seq<Peer>): set<nat> {
    set p | p in list && Whole(p) && p.state == Deleting :: p.id.value
  }

  function AdoptMap(list: seq<Peer>, managed: set<string>): map<string, nat> {
    if list == [] then map[]
    else
      var p, m := list[|list| - 1], AdoptMap(list[..|list| - 1], managed);
      if Whole(p) && Alive(p) && p.address.value !in managed then m[p.address.value := p.id.value] else m
  }

  lemma {:induction false} ManagedMapIs(ps: seq<Peer>, e: string, cluster: string, ip: string)
    ensures var m, i := ManagedMap(Managed(ps, e, cluster)), LastHolder(ps, e, cluster, ip);
            && (ip in m <==> i >= 0)
            && (ip in m ==> Some(m[ip]) == ps[i].id)
  {
    if ps != [] {
      var most, p := ps[..|ps| - 1], ps[|ps| - 1];
      ManagedMapIs(most, e, cluster, ip);
      var list := Managed(most, e, cluster);
      if p.endpoint == e && HasTag(p, cluster) {
        assert (list + [p])[..|list|] == list;
        assert Managed(ps, e, cluster) == list + [p];
      } else {
        assert Managed(ps, e, cluster) == list;
      }
    }
  }

  lemma {:induction false} ManagedMembers(ps: seq<Peer>, e: string, cluster: string)
    ensures forall p :: p in Managed(ps, e, cluster) <==> p in ps && p.endpoint == e && HasTag(p, cluster)
  {
    if ps != [] {
      ManagedMembers(ps[..|ps| - 1], e, cluster);
      assert ps == ps[..|ps| - 1] + [ps[|ps| - 1]];
    }
  }

  /** Identifiers being unique, looking one up among the deleting ones reads the
      state of its own peer. */
  lemma DeletingReads(ps: seq<Peer>, e: string, cluster: string, i: nat)
    requires UniqueIds(ps) && i < |ps| && Holds(ps[i], e, cluster)
    ensures ps[i].id.value in DeletingIds(Managed(ps, e, cluster)) <==> ps[i].state == Deleting
  {
    ManagedMembers(ps, e, cluster);
    if ps[i].id.value in DeletingIds(Managed(ps, e, cluster)) {
      var p :| p in Managed(ps, e, cluster) && Whole(p) && p.state == Deleting && p.id.value == ps[i].id.value;
      var j :| 0 <= j < |ps| && ps[j] == p;
      assert i == j;
    } else {
      assert ps[i] in Managed(ps, e, cluster);
    }
  }

  lemma {:induction false} AdoptMapIs(ps: seq<Peer>, e: string, managed: set<string>, ip: string)
    requires ip !in managed
    ensures var m, i := AdoptMap(OnEndpoint(ps, e), managed), LastAdoptable(ps, e, ip);
            && (ip in m <==> i >= 0)
            && (ip in m ==> Some(m[ip]) == ps[i].id)
  {
    if ps != [] {
      var most, p := ps[..|ps| - 1], ps[|ps| - 1];
      AdoptMapIs(most, e, managed, ip);
      var list := OnEndpoint(most, e);
      if p.endpoint == e {
        assert (list + [p])[..|list|] == list;
        assert OnEndpoint(ps, e) == list + [p];
      } else {
        assert OnEndpoint(ps, e) == list;
      }
    }
  }

  /** Peers at an address that has not been dealt with are as they were. */
  lemma {:induction false} AdoptableSame(ps: seq<Peer>, qs: seq<Peer>, e: string, ip: string)
    requires |ps| == |qs|
    requires forall i :: 0 <= i < |ps| ==>
               qs[i].address == ps[i].address && (ps[i].address == Some(ip) ==> qs[i] == ps[i])
    ensures LastAdoptable(ps, e, ip) == LastAdoptable(qs, e, ip)
  {
    if ps != [] {
      var n := |ps| - 1;
      assert ps[n].address == Some(ip) ==> qs[n] == ps[n];
      AdoptableSame(ps[..n], qs[..n], e, ip);
    }
  }

  // ----------------------------------------------------------------- step by step

  lemma ProgressStarts(ps: seq<Peer>, w: Wanted, todo: set<string>)
    requires UniqueIds(ps)
    requires forall ip :: ip in w.ips || LastHolder(ps, w.endpoint, w.cluster, ip) >= 0 ==> ip in todo
    ensures Progress(ps, ps, w, todo)
  {}

  /** One more address is dealt with among the listed peers. */
  lemma TreatOne(before: seq<Peer>, now: seq<Peer>, next: seq<Peer>, w: Wanted, todo: set<string>, ip: string)
    requires Progress(before, now, w, todo) && !Needed(before, w, ip)
    requires |next| == |now| && UniqueIds(next)
    requires forall i :: 0 <= i < |before| ==>
               next[i] == if before[i].address == Some(ip) then Treated(before, w, i) else now[i]
    requires forall i :: |before| <= i < |now| ==> next[i] == now[i]
    ensures Progress(before, next, w, todo - {ip})
  {
    forall x | Needed(before, w, x) && x !in todo - {ip}
      ensures exists i :: |before| <= i < |next| && next[i].address == Some(x)
    {
      var i :| |before| <= i < |now| && now[i].address == Some(x);
      assert next[i].address == Some(x);
    }
  }

  lemma NothingToTreat(before: seq<Peer>, now: seq<Peer>, w: Wanted, todo: set<string>, ip: string)
    requires Progress(before, now, w, todo) && !Needed(before, w, ip) && ip in todo
    requires forall i :: 0 <= i < |before| && before[i].address == Some(ip) ==> Treated(before, w, i) == before[i]
    ensures Progress(before, now, w, todo - {ip})
  {
    TreatOne(before, now, now, w, todo, ip);
  }

  lemma CreateOne(before: seq<Peer>, now: seq<Peer>, w: Wanted, todo: set<string>, ip: string, id: nat)
    requires Progress(before, now, w, todo) && Needed(before, w, ip) && ip in todo
    requires UniqueIds(now + [NewPeer(id, w, ip)])
    ensures Progress(before, now + [NewPeer(id, w, ip)], w, todo - {ip})
  {
    var next := now + [NewPeer(id, w, ip)];
    forall x | Needed(before, w, x) && x !in todo - {ip}
      ensures exists i :: |before| <= i < |next| && next[i].address == Some(x)
    {
      if x == ip {
        assert next[|now|].address == Some(x);
      } else {
        var i :| |before| <= i < |now| && now[i].address == Some(x);
        assert next[i].address == Some(x);
      }
    }
  }

  // ------------------------------------------------------------ what progress keeps

  /** A peer is treated at most once, keeps its identity, and is not touched if
      it is on another endpoint, or carries no tag and is not wanted. */
  lemma ProgressFrame(before: seq<Peer>, after: seq<Peer>, w: Wanted, todo: set<string>)
    requires Progress(before, after, w, todo)
    ensures forall i :: 0 <= i < |before| ==>
              && after[i] == before[i].(state := after[i].state, tags := after[i].tags)
              && (before[i].endpoint != w.endpoint ==> after[i] == before[i])
              && (!HasTag(before[i], w.cluster) && (before[i].address.None? || before[i].address.value !in w.ips) ==>
                    after[i] == before[i])
              && (HasTag(before[i], w.cluster) ==> HasTag(after[i], w.cluster))
    ensures forall i :: |before| <= i < |after| ==> after[i].endpoint == w.endpoint
  {}

  /** A peer as it is made: for a wanted address of the endpoint, with the ASN and the
      liveness detection of the configuration and the cluster's tag. */
  predicate MadeFor(p: Peer, endpoint: string, ips: set<string>, cluster: string, asn: int, bfd: bool) {
    && p.endpoint == endpoint && p.address.Some? && p.address.value in ips && p.asn == asn && p.bfd == bfd
    && "managed-by" in p.tags && p.tags["managed-by"] == "bgp-cloud-connector/" + cluster
  }

  /** Whatever a turn adds to the list, finished or not, is made so. */
  lemma NewPeersMade(before: seq<Peer>, after: seq<Peer>, w: Wanted, todo: set<string>)
    requires Progress(before, after, w, todo)
    ensures forall i :: |before| <= i < |after| ==> MadeFor(after[i], w.endpoint, w.ips, w.cluster, w.asn, w.bfd)
  {
    forall i | |before| <= i < |after| ensures MadeFor(after[i], w.endpoint, w.ips, w.cluster, w.asn, w.bfd) {
      assert IsNew(after[i], w) && Needed(before, w, after[i].address.value);
      TagReads(after[i], w.cluster);
    }
  }

  /** And it stays so, but for its state, whatever later turns do. */
  lemma MadeStays(before: seq<Peer>, after: seq<Peer>, w: Wanted, todo: set<string>, i: nat, endpoint: string,
                  ips: set<string>, asn: int, bfd: bool)
    requires Progress(before, after, w, todo) && i < |before|
    requires MadeFor(before[i], endpoint, ips, w.cluster, asn, bfd)
    ensures MadeFor(after[i], endpoint, ips, w.cluster, asn, bfd)
  {
    ProgressFrame(before, after, w, todo);
    TagReads(before[i], w.cluster);
    TagReads(after[i], w.cluster);
  }

  /** Two managed peers holding one address on one endpoint. */
  predicate Rivals(p: Peer, q: Peer, cluster: string) {
    Holds(p, p.endpoint, cluster) && Holds(q, p.endpoint, cluster) && p.address == q.address
  }

  predicate NoRivals(ps: seq<Peer>, cluster: string) {
    forall i, j :: 0 <= i < j < |ps| ==> !Rivals(ps[i], ps[j], cluster)
  }

  lemma HolderTreated(before: seq<Peer>, w: Wanted, i: nat)
    requires i < |before| && Holds(Treated(before, w, i), before[i].endpoint, w.cluster)
    ensures Treated(before, w, i).address == before[i].address
    ensures var ip := before[i].address.value;
            || Holds(before[i], before[i].endpoint, w.cluster)
            || (before[i].endpoint == w.endpoint && ip in w.ips && LastHolder(before, w.endpoint, w.cluster, ip) == -1
                && LastAdoptable(before, w.endpoint, ip) == i)
  {}

  /** A peer holds an address after a pass only if it did before, was adopted for
      it, or was created for it; each happens only where nobody held it. */
  lemma HolderAfter(before: seq<Peer>, after: seq<Peer>, w: Wanted, todo: set<string>, i: nat)
    requires Progress(before, after, w, todo) && i < |after| && Holds(after[i], after[i].endpoint, w.cluster)
    ensures var ip := after[i].address.value;
            || (i < |before| && Holds(before[i], before[i].endpoint, w.cluster))
            || (after[i].endpoint == w.endpoint && ip in w.ips && LastHolder(before, w.endpoint, w.cluster, ip) == -1
                && (if i < |before| then LastAdoptable(before, w.endpoint, ip) == i
                    else LastAdoptable(before, w.endpoint, ip) == -1))
  {
    hide LastHolder, LastAdoptable;
    if i < |before| {
      if after[i] != before[i] {
        TreatedPlace(before, w, i);
        HolderTreated(before, w, i);
      }
    } else {
      assert IsNew(after[i], w) && Needed(before, w, after[i].address.value);
    }
  }

  lemma TreatedPlace(before: seq<Peer>, w: Wanted, i: nat)
    requires i < |before|
    ensures Treated(before, w, i).endpoint == before[i].endpoint
  {}

  lemma ProgressKeepsNoRivals(before: seq<Peer>, after: seq<Peer>, w: Wanted, todo: set<string>)
    requires Progress(before, after, w, todo) && NoRivals(before, w.cluster)
    ensures NoRivals(after, w.cluster)
  {
    forall i, j | 0 <= i < j < |after| ensures !Rivals(after[i], after[j], w.cluster) {
      if Rivals(after[i], after[j], w.cluster) {
        HolderAfter(before, after, w, todo, i);
        HolderAfter(before, after, w, todo, j);
        ProgressFrame(before, after, w, todo);
      }
    }
  }

  // --------------------------------------------------------------------- convergence

  /** The endpoint is as wanted: every address has a live managed peer, no other
      live managed peer is there, and none is there twice. */
  predicate Converged(ps: seq<Peer>, w: Wanted) {
    && (forall ip :: ip in w.ips ==>
          exists i :: 0 <= i < |ps| && Holds(ps[i], w.endpoint, w.cluster) && Alive(ps[i]) && ps[i].address == Some(ip))
    && (forall i :: 0 <= i < |ps| && Holds(ps[i], w.endpoint, w.cluster) && Alive(ps[i]) ==>
          ps[i].address.value in w.ips)
    && (forall i :: 0 <= i < |ps| && Holds(ps[i], w.endpoint, w.cluster) && ps[i].state == Deleting ==>
          ps[i].address.value !in w.ips)
    && (forall i, j | 0 <= i < j < |ps| && Holds(ps[i], w.endpoint, w.cluster)
                      && Holds(ps[j], w.endpoint, w.cluster) :: ps[i].address != ps[j].address)
  }

  /** What convergence in one pass takes: no rivals, and no wanted address still
      held by a peer on its way out. */
  predicate Convergent(ps: seq<Peer>, w: Wanted) {
    && (forall i, j | 0 <= i < j < |ps| && Holds(ps[i], w.endpoint, w.cluster)
                      && Holds(ps[j], w.endpoint, w.cluster) :: ps[i].address != ps[j].address)
    && (forall i :: 0 <= i < |ps| && Holds(ps[i], w.endpoint, w.cluster) && ps[i].state == Deleting ==>
          ps[i].address.value !in w.ips)
  }

  lemma HolderIs(ps: seq<Peer>, w: Wanted, i: nat)
    requires Convergent(ps, w) && i < |ps| && Holds(ps[i], w.endpoint, w.cluster)
    ensures LastHolder(ps, w.endpoint, w.cluster, ps[i].address.value) == i
  {}

  lemma WantedIsThere(before: seq<Peer>, after: seq<Peer>, w: Wanted, ip: string)
    requires Convergent(before, w) && Progress(before, after, w, {}) && ip in w.ips
    ensures exists i :: 0 <= i < |after| && Holds(after[i], w.endpoint, w.cluster) && Alive(after[i])
                        && after[i].address == Some(ip)
  {
    var h, a := LastHolder(before, w.endpoint, w.cluster, ip), LastAdoptable(before, w.endpoint, ip);
    if h >= 0 {
      assert after[h] == before[h];
      assert Holds(after[h], w.endpoint, w.cluster) && Alive(after[h]);
    } else if a >= 0 {
      assert after[a] == Treated(before, w, a);
      assert Holds(after[a], w.endpoint, w.cluster) && Alive(after[a]);
    } else {
      hide LastHolder, LastAdoptable;
      assert Needed(before, w, ip);
      var i :| |before| <= i < |after| && after[i].address == Some(ip);
      assert IsNew(after[i], w);
    }
  }

  lemma NoneUnwanted(before: seq<Peer>, after: seq<Peer>, w: Wanted, i: nat)
    requires Convergent(before, w) && Progress(before, after, w, {})
    requires i < |after| && Holds(after[i], w.endpoint, w.cluster)
    ensures Alive(after[i]) ==> after[i].address.value in w.ips
    ensures after[i].state == Deleting ==> after[i].address.value !in w.ips
  {
    if i < |before| && Holds(before[i], w.endpoint, w.cluster) {
      HolderIs(before, w, i);
    } else {
      HolderAfter(before, after, w, {}, i);
    }
  }

  lemma StillNoRivals(before: seq<Peer>, after: seq<Peer>, w: Wanted, i: nat, j: nat)
    requires Convergent(before, w) && Progress(before, after, w, {}) && i < j < |after|
    requires Holds(after[i], w.endpoint, w.cluster) && Holds(after[j], w.endpoint, w.cluster)
    ensures after[i].address != after[j].address
  {
    HolderAfter(before, after, w, {}, i);
    HolderAfter(before, after, w, {}, j);
  }

  lemma ReachesConverged(before: seq<Peer>, after: seq<Peer>, w: Wanted)
    requires Convergent(before, w) && Progress(before, after, w, {})
    ensures Converged(after, w)
  {
    hide Progress, Convergent, Holds;
    forall ip | ip in w.ips
      ensures exists i :: 0 <= i < |after| && Holds(after[i], w.endpoint, w.cluster) && Alive(after[i])
                          && after[i].address == Some(ip)
    {
      WantedIsThere(before, after, w, ip);
    }
    forall i | 0 <= i < |after| && Holds(after[i], w.endpoint, w.cluster)
      ensures Whole(after[i])
      ensures Alive(after[i]) ==> after[i].address.value in w.ips
      ensures after[i].state == Deleting ==> after[i].address.value !in w.ips
    {
      HolderWhole(after[i], w.endpoint, w.cluster);
      NoneUnwanted(before, after, w, i);
    }
    forall i, j | 0 <= i < j < |after| && Holds(after[i], w.endpoint, w.cluster)
                  && Holds(after[j], w.endpoint, w.cluster)
      ensures after[i].address != after[j].address
    {
      StillNoRivals(before, after, w, i, j);
    }
  }

  lemma HolderWhole(p: Peer, e: string, cluster: string)
    requires Holds(p, e, cluster)
    ensures Whole(p)
  {}

  /** A finished turn makes a wrong start no better: holders stay holders, and a
      deleting one goes on deleting. */
  lemma HolderStays(before: seq<Peer>, after: seq<Peer>, w: Wanted, i: nat)
    requires Progress(before, after, w, {}) && i < |before| && Holds(before[i], w.endpoint, w.cluster)
    ensures Holds(after[i], w.endpoint, w.cluster) && after[i].address == before[i].address
    ensures before[i].state == Deleting ==> after[i].state == Deleting
  {}

  /** A finished turn leaves the endpoint as wanted if and only if it began without
      rivals and without a wanted address held by a deleting peer. */
  lemma ConvergedExactly(before: seq<Peer>, after: seq<Peer>, w: Wanted)
    requires Progress(before, after, w, {})
    ensures Converged(after, w) <==> Convergent(before, w)
  {
    if Convergent(before, w) { ReachesConverged(before, after, w); }
    if Converged(after, w) {
      forall i | 0 <= i < |before| && Holds(before[i], w.endpoint, w.cluster)
        ensures Holds(after[i], w.endpoint, w.cluster) && after[i].address == before[i].address
        ensures before[i].state == Deleting ==> after[i].state == Deleting
      {
        HolderStays(before, after, w, i);
      }
      hide Progress;
    }
  }

  /** As wanted, read off the listed fields: on each wanted address a live peer of the
      endpoint with the cluster's tag, and no such peer, if it carries both fields,
      on any other. */
  lemma ConvergedReads(ps: seq<Peer>, w: Wanted)
    requires Converged(ps, w)
    ensures forall ip :: ip in w.ips ==>
              exists p :: p in ps && p.endpoint == w.endpoint && p.address == Some(ip)
                          && p.state != Deleting && p.state != Deleted
                          && "managed-by" in p.tags && p.tags["managed-by"] == "bgp-cloud-connector/" + w.cluster
    ensures forall p :: p in ps && p.endpoint == w.endpoint && p.id.Some? && p.address.Some?
                        && p.state != Deleting && p.state != Deleted
                        && "managed-by" in p.tags && p.tags["managed-by"] == "bgp-cloud-connector/" + w.cluster ==>
              p.address.value in w.ips
  {
    forall p ensures HasTag(p, w.cluster) <==>
                     "managed-by" in p.tags && p.tags["managed-by"] == "bgp-cloud-connector/" + w.cluster
    {
      TagReads(p, w.cluster);
    }
    forall ip | ip in w.ips
      ensures exists p :: p in ps && p.endpoint == w.endpoint && p.address == Some(ip)
                          && p.state != Deleting && p.state != Deleted && HasTag(p, w.cluster)
    {
      var i :| 0 <= i < |ps| && Holds(ps[i], w.endpoint, w.cluster) && Alive(ps[i]) && ps[i].address == Some(ip);
      assert ps[i] in ps;
    }
  }

  /** Nothing would be deleted, tagged or created. */
  predicate Quiet(ps: seq<Peer>, w: Wanted) {
    && (forall i :: 0 <= i < |ps| ==> Treated(ps, w, i) == ps[i])
    && (forall ip :: ip in w.ips ==> !Needed(ps, w, ip))
  }

  lemma ConvergedIsQuiet(ps: seq<Peer>, w: Wanted)
    requires Converged(ps, w)
    ensures Quiet(ps, w) && Convergent(ps, w)
  {
    forall ip | ip in w.ips ensures LastHolder(ps, w.endpoint, w.cluster, ip) >= 0 {
      var i :| 0 <= i < |ps| && Holds(ps[i], w.endpoint, w.cluster) && Alive(ps[i]) && ps[i].address == Some(ip);
    }
  }

  /** Two lists alike on an endpoint. */
  predicate AlikeOn(ps: seq<Peer>, qs: seq<Peer>, e: string) {
    && |ps| <= |qs|
    && (forall i :: 0 <= i < |ps| ==>
          qs[i].endpoint == ps[i].endpoint && (ps[i].endpoint == e ==> qs[i] == ps[i]))
    && (forall i :: |ps| <= i < |qs| ==> qs[i].endpoint != e)
  }

  lemma AlikeConverged(ps: seq<Peer>, qs: seq<Peer>, w: Wanted)
    requires AlikeOn(ps, qs, w.endpoint)
    ensures Converged(ps, w) <==> Converged(qs, w)
    ensures Convergent(ps, w) <==> Convergent(qs, w)
  {
    forall ip, i | 0 <= i < |ps| && Holds(ps[i], w.endpoint, w.cluster) && Alive(ps[i]) && ps[i].address == Some(ip)
      ensures Holds(qs[i], w.endpoint, w.cluster) && Alive(qs[i]) && qs[i].address == Some(ip)
    {}
    forall i | 0 <= i < |qs| && Holds(qs[i], w.endpoint, w.cluster) ensures i < |ps| && qs[i] == ps[i] {}
  }

  /** Reconciling one endpoint leaves the others as they are. */
  lemma OtherEndpointKept(before: seq<Peer>, after: seq<Peer>, w: Wanted, todo: set<string>, v: Wanted)
    requires Progress(before, after, w, todo) && w.endpoint != v.endpoint
    ensures Converged(before, v) <==> Converged(after, v)
    ensures Convergent(before, v) <==> Convergent(after, v)
  {
    ProgressFrame(before, after, w, todo);
    assert AlikeOn(before, after, v.endpoint);
    AlikeConverged(before, after, v);
  }

  // ---------------------------------------------------------------------- adoption

  /** What makes a turn take a peer over: it is live, it has a wanted address
      nobody holds for this cluster, and it is the last listed of such. Whose it
      was does not enter into it. */
  predicate TakenOver(ps: seq<Peer>, w: Wanted, i: nat)
    requires i < |ps|
  {
    && Adoptable(ps[i], w.endpoint) && ps[i].address.value in w.ips
    && (forall j :: 0 <= j < |ps| && Holds(ps[j], w.endpoint, w.cluster) ==> ps[j].address != ps[i].address)
    && (forall j :: i < j < |ps| && Adoptable(ps[j], w.endpoint) ==> ps[j].address != ps[i].address)
  }

  lemma TakenOverIsTagged(ps: seq<Peer>, w: Wanted, i: nat)
    requires i < |ps|
    ensures TakenOver(ps, w, i) ==> Treated(ps, w, i) == ps[i].(tags := ps[i].tags + PeerTags(w.cluster))
    ensures !TakenOver(ps, w, i) ==> Treated(ps, w, i).tags == ps[i].tags
  {
    if ps[i].address.Some? {
      var ip := ps[i].address.value;
      var h, a := LastHolder(ps, w.endpoint, w.cluster, ip), LastAdoptable(ps, w.endpoint, ip);
      assert h >= 0 ==> Holds(ps[h], w.endpoint, w.cluster) && ps[h].address == ps[i].address;
      assert a >= 0 ==> Adoptable(ps[a], w.endpoint) && ps[a].address == ps[i].address;
    }
  }

  /** A finished turn takes another cluster's tag off a peer exactly when it takes
      the peer over. */
  lemma TagLostExactly(before: seq<Peer>, after: seq<Peer>, w: Wanted, i: nat, other: string)
    requires Progress(before, after, w, {}) && i < |before| && HasTag(before[i], other) && other != w.cluster
    ensures !HasTag(after[i], other) <==> TakenOver(before, w, i)
  {
    TagsDistinct(other, w.cluster);
    TakenOverIsTagged(before, w, i);
    assert after[i] == Treated(before, w, i);
  }

  /** What happens on other endpoints does not matter. */
  lemma TakenOverLocal(before: seq<Peer>, after: seq<Peer>, w: Wanted, i: nat)
    requires |before| <= |after| && i < |before|
    requires forall j :: 0 <= j < |before| && before[j].endpoint == w.endpoint ==> after[j] == before[j]
    requires forall j :: 0 <= j < |before| ==> after[j].endpoint == before[j].endpoint
    requires forall j :: |before| <= j < |after| ==> after[j].endpoint != w.endpoint
    ensures TakenOver(after, w, i) <==> TakenOver(before, w, i)
  {
    if TakenOver(before, w, i) {
      forall j | 0 <= j < |after| && after[j].endpoint == w.endpoint ensures j < |before| && after[j] == before[j] {}
    }
    if TakenOver(after, w, i) {
      forall j | 0 <= j < |before| && before[j].endpoint == w.endpoint ensures after[j] == before[j] {}
    }
  }
}
