/** A whole pass over the endpoints, and runs of passes, clean-ups and EC2's own
    changes. */
module AwsPass {
  import opened Options
  import opened AwsPeers
  import opened AwsEndpoint

  /** One endpoint's turn. */
  datatype Stage = Stage(w: Wanted, todo: set<string>, from: seq<Peer>, to: seq<Peer>)

  ghost predicate IsPass(before: seq<Peer>, stages: seq<Stage>, after: seq<Peer>) {
    && (forall i :: 0 <= i < |stages| ==> Progress(stages[i].from, stages[i].to, stages[i].w, stages[i].todo))
    && (forall i :: 0 <= i < |stages| - 1 ==> stages[i].to == stages[i + 1].from)
    && (if stages == [] then after == before
        else stages[0].from == before && stages[|stages| - 1].to == after)
  }

  function Wants(stages: seq<Stage>): seq<Wanted> {
    seq(|stages|, i requires 0 <= i < |stages| => stages[i].w)
  }

  lemma PassExtends(before: seq<Peer>, stages: seq<Stage>, middle: seq<Peer>, s: Stage)
    requires IsPass(before, stages, middle) && s.from == middle && Progress(s.from, s.to, s.w, s.todo)
    ensures IsPass(before, stages + [s], s.to) && Wants(stages + [s]) == Wants(stages) + [s.w]
  {
    hide Progress;
    var more := stages + [s];
    assert forall i :: 0 <= i < |stages| ==> more[i] == stages[i];
  }

  lemma PassPrefix(before: seq<Peer>, stages: seq<Stage>, after: seq<Peer>)
    requires IsPass(before, stages, after) && stages != []
    ensures IsPass(before, stages[..|stages| - 1], stages[|stages| - 1].from)
  {}

  ghost predicate AllFor(stages: seq<Stage>, cluster: string) {
    forall i :: 0 <= i < |stages| ==> stages[i].w.cluster == cluster
  }

  /** At most one managed peer holds an address on an endpoint, and no pass,
      finished or broken off anywhere, changes that. */
  lemma {:induction false} PassKeepsNoRivals(before: seq<Peer>, stages: seq<Stage>, after: seq<Peer>, cluster: string)
    requires IsPass(before, stages, after) && AllFor(stages, cluster) && NoRivals(before, cluster)
    ensures NoRivals(after, cluster)
    decreases |stages|
  {
    if stages != [] {
      var s := stages[|stages| - 1];
      PassPrefix(before, stages, after);
      PassKeepsNoRivals(before, stages[..|stages| - 1], s.from, cluster);
      ProgressKeepsNoRivals(s.from, s.to, s.w, s.todo);
    }
  }

  /** Not asked for by any endpoint's turn. */
  predicate Unwanted(p: Peer, stages: seq<Stage>) {
    forall i :: 0 <= i < |stages| ==>
      stages[i].w.endpoint != p.endpoint || p.address.None? || p.address.value !in stages[i].w.ips
  }

  /** Peers keep their place and identity, and one without the tag that is not
      wanted on its endpoint is not changed at all. */
  lemma {:induction false} PassFrame(before: seq<Peer>, stages: seq<Stage>, after: seq<Peer>, cluster: string)
    requires IsPass(before, stages, after) && AllFor(stages, cluster)
    ensures |before| <= |after|
    ensures forall i :: 0 <= i < |before| ==>
              && after[i] == before[i].(state := after[i].state, tags := after[i].tags)
              && (!HasTag(before[i], cluster) && Unwanted(before[i], stages) ==> after[i] == before[i])
              && ((forall k :: 0 <= k < |stages| ==> stages[k].w.endpoint != before[i].endpoint) ==>
                    after[i] == before[i])
    decreases |stages|
  {
    if stages != [] {
      var n := |stages| - 1;
      var s := stages[n];
      PassPrefix(before, stages, after);
      PassFrame(before, stages[..n], s.from, cluster);
      ProgressFrame(s.from, s.to, s.w, s.todo);
      forall i | 0 <= i < |before|
        ensures !HasTag(before[i], cluster) && Unwanted(before[i], stages) ==> after[i] == before[i]
      {
        if Unwanted(before[i], stages) {
          assert Unwanted(before[i], stages[..n]) by { assert forall k :: 0 <= k < n ==> stages[..n][k] == stages[k]; }
        }
      }
    }
  }

  predicate DistinctEndpoints(ws: seq<Wanted>) {
    forall i, j :: 0 <= i < j < |ws| ==> ws[i].endpoint != ws[j].endpoint
  }

  ghost predicate Complete(stages: seq<Stage>) {
    forall i :: 0 <= i < |stages| ==> stages[i].todo == {}
  }

  /** An endpoint without a turn stays as it is. */
  lemma {:induction false} NoTurnKept(before: seq<Peer>, stages: seq<Stage>, after: seq<Peer>, v: Wanted)
    requires IsPass(before, stages, after)
    requires forall k :: 0 <= k < |stages| ==> stages[k].w.endpoint != v.endpoint
    ensures Converged(after, v) <==> Converged(before, v)
    ensures Convergent(after, v) <==> Convergent(before, v)
    decreases |stages|
  {
    if stages != [] {
      var s := stages[|stages| - 1];
      PassPrefix(before, stages, after);
      NoTurnKept(before, stages[..|stages| - 1], s.from, v);
      OtherEndpointKept(s.from, s.to, s.w, s.todo, v);
    }
  }

  /** Made by one of the turns, for an address wanted there, and configured as that
      turn asks. */
  ghost predicate MadeByTurn(p: Peer, stages: seq<Stage>) {
    exists k :: 0 <= k < |stages|
                && var w := stages[k].w; MadeFor(p, w.endpoint, w.ips, w.cluster, w.asn, w.bfd)
  }

  /** Whatever a pass adds to the list, finished or broken off, is made so. */
  lemma {:induction false} PassMakes(before: seq<Peer>, stages: seq<Stage>, after: seq<Peer>, cluster: string)
    requires IsPass(before, stages, after) && AllFor(stages, cluster)
    ensures |before| <= |after| && forall i :: |before| <= i < |after| ==> MadeByTurn(after[i], stages)
    decreases |stages|
  {
    if stages != [] {
      var n := |stages| - 1;
      var s, most := stages[n], stages[..n];
      PassPrefix(before, stages, after);
      PassMakes(before, most, s.from, cluster);
      NewPeersMade(s.from, s.to, s.w, s.todo);
      ProgressFrame(s.from, s.to, s.w, s.todo);
      hide MadeFor;
      forall i | |before| <= i < |after| ensures MadeByTurn(after[i], stages) {
        if i < |s.from| {
          var k :| 0 <= k < n
                   && var w := most[k].w; MadeFor(s.from[i], w.endpoint, w.ips, w.cluster, w.asn, w.bfd);
          var w := stages[k].w;
          MadeStays(s.from, s.to, s.w, s.todo, i, w.endpoint, w.ips, w.asn, w.bfd);
        } else {
          assert MadeFor(after[i], s.w.endpoint, s.w.ips, s.w.cluster, s.w.asn, s.w.bfd);
        }
      }
    }
  }

  /** What the pass before the last turn has of it. */
  lemma EarlierPass(before: seq<Peer>, stages: seq<Stage>, after: seq<Peer>)
    requires IsPass(before, stages, after) && stages != []
    requires Complete(stages) && DistinctEndpoints(Wants(stages))
    ensures var n, s := |stages| - 1, stages[|stages| - 1];
            && IsPass(before, stages[..n], s.from)
            && Complete(stages[..n]) && DistinctEndpoints(Wants(stages[..n]))
            && Progress(s.from, after, s.w, {})
            && (forall k :: 0 <= k < n ==> stages[k].w.endpoint != s.w.endpoint)
  {
    var n := |stages| - 1;
    PassPrefix(before, stages, after);
    forall k | 0 <= k < n
      ensures Wants(stages[..n])[k] == Wants(stages)[k] && stages[k].w.endpoint != stages[n].w.endpoint
    {
      assert Wants(stages)[k] == stages[k].w && Wants(stages)[n] == stages[n].w;
    }
  }

  /** Convergence, endpoint by endpoint: a complete pass over distinct endpoints
      leaves one as wanted if and only if the pass began without rivals on it and
      without a wanted address held by a deleting peer. */
  lemma {:induction false} PassConverges(before: seq<Peer>, stages: seq<Stage>, after: seq<Peer>, k: nat)
    requires IsPass(before, stages, after) && Complete(stages) && DistinctEndpoints(Wants(stages)) && k < |stages|
    ensures Converged(after, stages[k].w) <==> Convergent(before, stages[k].w)
    decreases |stages|
  {
    var n := |stages| - 1;
    var s, most := stages[n], stages[..n];
    EarlierPass(before, stages, after);
    hide *;
    if k < n {
      PassConverges(before, most, s.from, k);
      assert most[k] == stages[k];
      OtherEndpointKept(s.from, after, s.w, {}, stages[k].w);
    } else {
      NoTurnKept(before, most, s.from, s.w);
      ConvergedExactly(s.from, after, s.w);
    }
  }

  lemma {:induction false} NewPeersAt(before: seq<Peer>, stages: seq<Stage>, after: seq<Peer>)
    requires IsPass(before, stages, after)
    ensures |before| <= |after|
    ensures forall j :: |before| <= j < |after| ==>
              exists k :: 0 <= k < |stages| && after[j].endpoint == stages[k].w.endpoint
    decreases |stages|
  {
    if stages != [] {
      var n := |stages| - 1;
      var s := stages[n];
      PassPrefix(before, stages, after);
      NewPeersAt(before, stages[..n], s.from);
      ProgressFrame(s.from, s.to, s.w, s.todo);
      forall j | |before| <= j < |after|
        ensures exists k :: 0 <= k < |stages| && after[j].endpoint == stages[k].w.endpoint
      {
        if j < |s.from| {
          var k :| 0 <= k < n && s.from[j].endpoint == stages[..n][k].w.endpoint;
          assert after[j].endpoint == stages[k].w.endpoint;
        } else {
          assert after[j].endpoint == stages[n].w.endpoint;
        }
      }
    }
  }

  /** Earlier turns were on other endpoints, so the last one takes over what it
      would have at the start, and touches only what they left alone. */
  lemma LastTurnTakes(before: seq<Peer>, most: seq<Stage>, from: seq<Peer>, w: Wanted, i: nat, cluster: string)
    requires IsPass(before, most, from) && AllFor(most, cluster) && i < |before|
    requires forall k :: 0 <= k < |most| ==> most[k].w.endpoint != w.endpoint
    ensures i < |from|
    ensures TakenOver(from, w, i) <==> TakenOver(before, w, i)
    ensures before[i].endpoint == w.endpoint ==> from[i] == before[i]
    ensures from[i].endpoint == before[i].endpoint
  {
    PassFrame(before, most, from, cluster);
    NewPeersAt(before, most, from);
    hide IsPass, AllFor, TakenOver;
    TakenOverLocal(before, from, w, i);
  }

  /** One of the turns, seen from the list the pass began with, takes the peer over. */
  ghost predicate TakenByTurn(before: seq<Peer>, stages: seq<Stage>, i: nat)
    requires i < |before|
  {
    exists k :: 0 <= k < |stages| && TakenOver(before, stages[k].w, i)
  }

  lemma OneMoreTurn(before: seq<Peer>, stages: seq<Stage>, i: nat)
    requires i < |before| && stages != []
    ensures var n := |stages| - 1;
            TakenByTurn(before, stages, i) <==>
            TakenByTurn(before, stages[..n], i) || TakenOver(before, stages[n].w, i)
  {
    var n := |stages| - 1;
    assert forall k :: 0 <= k < n ==> stages[..n][k] == stages[k];
  }

  /** The turn on the peer's own endpoint decides. */
  lemma OwnTurnDecides(before: seq<Peer>, from: seq<Peer>, after: seq<Peer>, w: Wanted, i: nat, other: string)
    requires Progress(from, after, w, {}) && i < |before| && i < |from|
    requires HasTag(before[i], other) && other != w.cluster
    requires TakenOver(from, w, i) <==> TakenOver(before, w, i)
    requires before[i].endpoint == w.endpoint ==> from[i] == before[i]
    requires from[i].endpoint == before[i].endpoint
    ensures i < |after|
    ensures before[i].endpoint == w.endpoint ==> (!HasTag(after[i], other) <==> TakenOver(before, w, i))
    ensures before[i].endpoint != w.endpoint ==> after[i] == from[i] && !TakenOver(before, w, i)
  {
    ProgressFrame(from, after, w, {});
    if before[i].endpoint == w.endpoint { TagLostExactly(from, after, w, i, other); }
  }

  /** Over a complete pass: a peer loses another cluster's tag exactly when one of
      the turns, seen from the list the pass began with, takes it over. */
  lemma {:induction false} TagLostOverPass(before: seq<Peer>, stages: seq<Stage>, after: seq<Peer>, cluster: string,
                                           i: nat, other: string)
    requires IsPass(before, stages, after) && Complete(stages) && AllFor(stages, cluster)
    requires DistinctEndpoints(Wants(stages)) && i < |before| && HasTag(before[i], other) && other != cluster
    ensures i < |after|
    ensures !HasTag(after[i], other) <==> TakenByTurn(before, stages, i)
    decreases |stages|
  {
    if stages != [] {
      var n := |stages| - 1;
      var s, most := stages[n], stages[..n];
      EarlierPass(before, stages, after);
      TagLostOverPass(before, most, s.from, cluster, i, other);
      LastTurnTakes(before, most, s.from, s.w, i, cluster);
      OwnTurnDecides(before, s.from, after, s.w, i, other);
      OneMoreTurn(before, stages, i);
      hide *;
      if s.w.endpoint == before[i].endpoint { NoneBefore(before, most, i); }
    }
  }

  lemma NoneBefore(before: seq<Peer>, stages: seq<Stage>, i: nat)
    requires i < |before| && forall k :: 0 <= k < |stages| ==> stages[k].w.endpoint != before[i].endpoint
    ensures !TakenByTurn(before, stages, i)
  {}

  lemma NewMeansNeeded(before: seq<Peer>, after: seq<Peer>, w: Wanted, todo: set<string>)
    requires Progress(before, after, w, todo)
    ensures |after| > |before| ==> exists ip :: Needed(before, w, ip)
  {
    if |after| > |before| {
      assert IsNew(after[|before|], w) && Needed(before, w, after[|before|].address.value);
    }
  }

  /** A turn on an endpoint that is as wanted changes nothing. */
  lemma QuietTurn(before: seq<Peer>, after: seq<Peer>, w: Wanted, todo: set<string>)
    requires Progress(before, after, w, todo) && Quiet(before, w)
    ensures after == before
  {
    NewMeansNeeded(before, after, w, todo);
  }

  // ------------------------------------------------------------------------ counting

  /** What countManagedPeers counts on one endpoint. */
  predicate Counted(p: Peer, w: Wanted) {
    && p.endpoint == w.endpoint && HasTag(p, w.cluster)
    && p.address.Some? && p.state != Deleted && p.address.value in w.ips
  }

  function CountAt(ps: seq<Peer>, w: Wanted): nat {
    if ps == [] then 0
    else CountAt(ps[..|ps| - 1], w) + if Counted(ps[|ps| - 1], w) then 1 else 0
  }

  function CountAll(ps: seq<Peer>, ws: seq<Wanted>): nat {
    if ws == [] then 0 else CountAll(ps, ws[..|ws| - 1]) + CountAt(ps, ws[|ws| - 1])
  }

  /** The number of peers asked for: on each endpoint one per distinct address. */
  function Asked(ws: seq<Wanted>): nat {
    if ws == [] then 0 else Asked(ws[..|ws| - 1]) + |ws[|ws| - 1].ips|
  }

  function CountedIPs(ps: seq<Peer>, w: Wanted): set<string> {
    set p | p in ps && Counted(p, w) :: p.address.value
  }

  predicate CarryBoth(ps: seq<Peer>, w: Wanted) {
    forall p :: p in ps && p.endpoint == w.endpoint && HasTag(p, w.cluster) ==> Whole(p)
  }

  lemma {:induction false} CountIsDistinct(ps: seq<Peer>, w: Wanted)
    requires Convergent(ps, w) && CarryBoth(ps, w)
    ensures CountAt(ps, w) == |CountedIPs(ps, w)|
  {
    if ps != [] {
      var n := |ps| - 1;
      ShorterStillSo(ps, w);
      CountIsDistinct(ps[..n], w);
      OneMoreCounted(ps, w);
    }
  }

  lemma ShorterStillSo(ps: seq<Peer>, w: Wanted)
    requires Convergent(ps, w) && CarryBoth(ps, w) && ps != []
    ensures Convergent(ps[..|ps| - 1], w) && CarryBoth(ps[..|ps| - 1], w)
  {
    var most := ps[..|ps| - 1];
    assert forall i :: 0 <= i < |most| ==> most[i] == ps[i];
  }

  lemma OneMoreCounted(ps: seq<Peer>, w: Wanted)
    requires Convergent(ps, w) && CarryBoth(ps, w) && ps != []
    ensures var most, p := ps[..|ps| - 1], ps[|ps| - 1];
            |CountedIPs(ps, w)| == |CountedIPs(most, w)| + if Counted(p, w) then 1 else 0
  {
    var n := |ps| - 1;
    var most, p := ps[..n], ps[n];
    assert ps == most + [p];
    if Counted(p, w) {
      assert p in ps && Holds(p, w.endpoint, w.cluster);
      forall q | q in most && Counted(q, w) ensures q.address != p.address {
        var i :| 0 <= i < n && most[i] == q;
        assert q in ps && Holds(ps[i], w.endpoint, w.cluster);
      }
      assert CountedIPs(ps, w) == CountedIPs(most, w) + {p.address.value};
    } else {
      assert CountedIPs(ps, w) == CountedIPs(most, w);
    }
  }

  lemma CountWhenConverged(ps: seq<Peer>, w: Wanted)
    requires Converged(ps, w) && CarryBoth(ps, w)
    ensures CountAt(ps, w) == |w.ips|
  {
    CountIsDistinct(ps, w);
    forall ip | ip in w.ips ensures ip in CountedIPs(ps, w) {
      var i :| 0 <= i < |ps| && Holds(ps[i], w.endpoint, w.cluster) && Alive(ps[i]) && ps[i].address == Some(ip);
      assert ps[i] in ps && Counted(ps[i], w);
    }
    assert CountedIPs(ps, w) == w.ips;
  }

  /** After convergence the gauge shows one peer per endpoint and distinct
      address wanted in its zone. */
  lemma {:induction false} GaugeWhenConverged(ps: seq<Peer>, ws: seq<Wanted>)
    requires forall w :: w in ws ==> Converged(ps, w) && CarryBoth(ps, w)
    ensures CountAll(ps, ws) == Asked(ws)
  {
    if ws != [] {
      assert ws[|ws| - 1] in ws;
      GaugeWhenConverged(ps, ws[..|ws| - 1]);
      CountWhenConverged(ps, ws[|ws| - 1]);
    }
  }

  // -------------------------------------------------------------------------- runs

  /** One deletion of Cleanup, or all of them: live managed peers may go, nothing
      else changes. */
  ghost predicate CleanupStep(before: seq<Peer>, after: seq<Peer>, cluster: string) {
    && |after| == |before|
    && forall i :: 0 <= i < |before| ==>
         after[i] == before[i]
         || (HasTag(before[i], cluster) && Alive(before[i]) && after[i] == before[i].(state := Deleting))
  }

  /** What may happen without this operator: peers move along their life, are
      untagged, retagged by others, and others add theirs. Nothing comes back to
      life, and nobody else uses this cluster's tag. */
  ghost predicate OutsideStep(before: seq<Peer>, after: seq<Peer>, cluster: string) {
    && |before| <= |after|
    && (forall i :: 0 <= i < |before| ==>
          && after[i] == before[i].(state := after[i].state, tags := after[i].tags)
          && (HasTag(after[i], cluster) ==> HasTag(before[i], cluster))
          && (before[i].state == Deleted ==> after[i].state == Deleted)
          && (before[i].state == Deleting ==> !Alive(after[i])))
    && (forall i :: |before| <= i < |after| ==> !HasTag(after[i], cluster))
  }

  datatype Event = Passed(stages: seq<Stage>) | Cleaned | Outside

  ghost predicate Step(before: seq<Peer>, e: Event, after: seq<Peer>, cluster: string) {
    match e
    case Passed(stages) => IsPass(before, stages, after) && AllFor(stages, cluster)
    case Cleaned => CleanupStep(before, after, cluster)
    case Outside => OutsideStep(before, after, cluster)
  }

  ghost predicate IsRun(events: seq<Event>, lists: seq<seq<Peer>>, cluster: string) {
    && |lists| == |events| + 1
    && forall i :: 0 <= i < |events| ==> Step(lists[i], events[i], lists[i + 1], cluster)
  }

  lemma HoldersOnlyFade(before: seq<Peer>, after: seq<Peer>, cluster: string)
    requires CleanupStep(before, after, cluster) || OutsideStep(before, after, cluster)
    requires NoRivals(before, cluster)
    ensures NoRivals(after, cluster)
  {
    forall i, j | 0 <= i < j < |after| ensures !Rivals(after[i], after[j], cluster) {
      if j < |before| { assert !Rivals(before[i], before[j], cluster); }
    }
  }

  /** Over any run of passes, clean-ups and outside changes no address of an
      endpoint ever gets a second holder. */
  lemma {:induction false} NeverTwoHolders(events: seq<Event>, lists: seq<seq<Peer>>, cluster: string)
    requires IsRun(events, lists, cluster) && NoRivals(lists[0], cluster)
    ensures NoRivals(lists[|events|], cluster)
    decreases |events|
  {
    if events != [] {
      var n := |events| - 1;
      NeverTwoHolders(events[..n], lists[..n + 1], cluster);
      match events[n] {
        case Passed(stages) => PassKeepsNoRivals(lists[n], stages, lists[n + 1], cluster);
        case _ => HoldersOnlyFade(lists[n], lists[n + 1], cluster);
      }
    }
  }

  /** No wanted address is held by a peer on its way out. */
  predicate NoneLeaving(ps: seq<Peer>, w: Wanted) {
    forall i :: 0 <= i < |ps| && Holds(ps[i], w.endpoint, w.cluster) && ps[i].state == Deleting ==>
      ps[i].address.value !in w.ips
  }

  /** So a complete pass after any run from a list without rivals leaves an endpoint
      as wanted if and only if no wanted address was held by a deleting peer. */
  lemma ConvergesAfterRun(events: seq<Event>, lists: seq<seq<Peer>>, cluster: string, stages: seq<Stage>,
                          after: seq<Peer>, k: nat)
    requires IsRun(events, lists, cluster) && NoRivals(lists[0], cluster)
    requires IsPass(lists[|events|], stages, after) && Complete(stages) && AllFor(stages, cluster)
    requires DistinctEndpoints(Wants(stages)) && k < |stages|
    ensures Converged(after, stages[k].w) <==> NoneLeaving(lists[|events|], stages[k].w)
  {
    NeverTwoHolders(events, lists, cluster);
    PassConverges(lists[|events|], stages, after, k);
    hide IsPass, IsRun, Converged;
    var ps, w := lists[|events|], stages[k].w;
    forall i, j | 0 <= i < j < |ps| && Holds(ps[i], w.endpoint, w.cluster) && Holds(ps[j], w.endpoint, w.cluster)
      ensures ps[i].address != ps[j].address
    {
      assert !Rivals(ps[i], ps[j], cluster);
    }
  }
}
