/** Making the numbered spokes of a hub exactly the chunks of the router nodes. */
module NccClient {
  import opened Options
  import opened Text
  import opened Sorting
  import opened GcpTypes
  import opened Spokes

  function At(s: Store, id: string): Option<Spoke> {
    if id in s then Some(s[id]) else None
  }

  predicate IsDesired(id: string, prefix: string, n: nat) {
    exists i :: 0 <= i < n && id == SpokeId(prefix, i)
  }

  /** What is read back of a spoke written for some nodes, in some order of them:
      where two share a self link the later one counts. */
  ghost predicate HeldAs(view: View, nodes: seq<RouterNode>, siteToSite: bool) {
    exists order :: multiset(order) == multiset(nodes) && view == View(siteToSite, NodeMap(order) - {""})
  }

  /** With distinct self links there is only one such reading. */
  lemma HeldExactly(view: View, nodes: seq<RouterNode>, siteToSite: bool)
    requires HeldAs(view, nodes, siteToSite) && DistinctKeys(nodes, SelfLink)
    ensures view == View(siteToSite, NodeMap(nodes) - {""})
  {
    var order :| multiset(order) == multiset(nodes) && view == View(siteToSite, NodeMap(order) - {""});
    NodeMapPermutation(nodes, order);
  }

  /** What a spoke is after its turn. Its hub is only chosen when it is created. */
  ghost predicate Reconciled(before: Option<Spoke>, after: Option<Spoke>, hub: string, nodes: seq<RouterNode>,
                             siteToSite: bool) {
    && after.Some? && HeldAs(Seen(after.value), nodes, siteToSite)
    && after.value.hub == if before.Some? then before.value.hub else hub
  }

  /** The first k spokes have had their turn and nothing else has changed. */
  ghost predicate Numbering(before: Store, now: Store, hub: string, prefix: string, chunks: seq<seq<RouterNode>>,
                            siteToSite: bool, k: nat)
    requires k <= |chunks|
  {
    && (forall i :: 0 <= i < k ==>
          var id := SpokeId(prefix, i);
          Reconciled(At(before, id), At(now, id), hub, chunks[i], siteToSite))
    && (forall id :: !IsDesired(id, prefix, k) ==> At(now, id) == At(before, id))
  }

  /** The work done: the desired spokes as reconciled, the listed ones that are
      not desired gone, every other spoke as it was. */
  ghost predicate Exact(before: Store, now: Store, hub: string, prefix: string, chunks: seq<seq<RouterNode>>,
                        siteToSite: bool) {
    && (forall i :: 0 <= i < |chunks| ==>
          var id := SpokeId(prefix, i);
          Reconciled(At(before, id), At(now, id), hub, chunks[i], siteToSite))
    && (forall id :: !IsDesired(id, prefix, |chunks|) ==>
          At(now, id) == if Listed(before, hub, prefix, id) then None else At(before, id))
  }

  /** Any point on the way: each spoke is as it was, or as it will be. */
  ghost predicate OnTheWay(before: Store, now: Store, hub: string, prefix: string, chunks: seq<seq<RouterNode>>,
                           siteToSite: bool) {
    && (forall i :: 0 <= i < |chunks| ==>
          var id := SpokeId(prefix, i);
          At(now, id) == At(before, id) || Reconciled(At(before, id), At(now, id), hub, chunks[i], siteToSite))
    && (forall id :: !IsDesired(id, prefix, |chunks|) ==>
          At(now, id) == At(before, id) || (Listed(before, hub, prefix, id) && At(now, id) == None))
  }

  /** Nothing to do. */
  ghost predicate InPlace(s: Store, hub: string, prefix: string, chunks: seq<seq<RouterNode>>, siteToSite: bool) {
    && (forall i :: 0 <= i < |chunks| ==>
          var id := SpokeId(prefix, i);
          id in s && Matches(s[id], chunks[i], siteToSite))
    && (forall id :: Listed(s, hub, prefix, id) ==> IsDesired(id, prefix, |chunks|))
  }

  // ------------------------------------------------------------------ theorems

  /** After a pass the hub lists exactly the numbers 0 to one below the number
      of chunks if and only if no spoke of such a name was on another hub: that
      one is rewritten where it is. */
  lemma HubHolds(before: Store, now: Store, hub: string, prefix: string, chunks: seq<seq<RouterNode>>,
                 siteToSite: bool)
    requires Exact(before, now, hub, prefix, chunks, siteToSite) && |chunks| <= MAX_INT
    ensures (forall id :: Listed(now, hub, prefix, id) <==> IsDesired(id, prefix, |chunks|))
            <==> forall i :: 0 <= i < |chunks| && SpokeId(prefix, i) in before ==>
                         before[SpokeId(prefix, i)].hub == hub
  {
    forall id ensures Listed(now, hub, prefix, id) ==> IsDesired(id, prefix, |chunks|) {
      if !IsDesired(id, prefix, |chunks|) {
        assert At(now, id) == if Listed(before, hub, prefix, id) then None else At(before, id);
      }
    }
    forall i | 0 <= i < |chunks|
      ensures Listed(now, hub, prefix, SpokeId(prefix, i)) <==>
              (SpokeId(prefix, i) in before ==> before[SpokeId(prefix, i)].hub == hub)
    {
      var id := SpokeId(prefix, i);
      NumberedExactly(prefix, i, prefix);
      assert Reconciled(At(before, id), At(now, id), hub, chunks[i], siteToSite);
    }
    if forall id :: Listed(now, hub, prefix, id) <==> IsDesired(id, prefix, |chunks|) {
      forall i | 0 <= i < |chunks| && SpokeId(prefix, i) in before ensures before[SpokeId(prefix, i)].hub == hub {
        var id := SpokeId(prefix, i);
        assert IsDesired(id, prefix, |chunks|);
        assert Listed(now, hub, prefix, id);
      }
    }
  }

  lemma ChunkNodes(nodes: seq<RouterNode>, chunks: seq<seq<RouterNode>>, i: nat)
    requires Chunking(chunks, nodes, MAX_INSTANCES_PER_SPOKE) && i < |chunks|
    ensures |chunks| == (|nodes| + 7) / 8
    ensures forall n :: n in chunks[i] ==> n in nodes
    ensures DistinctKeys(nodes, SelfLink) ==> DistinctKeys(chunks[i], SelfLink)
  {
    ChunkCount(chunks, MAX_INSTANCES_PER_SPOKE);
    PermutationSameElements(nodes, Flatten(chunks));
    forall n | n in chunks[i] ensures n in nodes {
      InFlatten(chunks, n);
    }
    if DistinctKeys(nodes, SelfLink) {
      DistinctPermutation(nodes, Flatten(chunks), SelfLink);
      ChunkDistinct(chunks, SelfLink, i);
    }
  }

  /** After a pass there is nothing left to do if and only if every node has a
      self link: one without is left out when a spoke is read back, and its
      spoke is patched again each time. (The platform takes self links from
      provider IDs, which always have one.) */
  lemma NextPassQuiet(before: Store, now: Store, hub: string, prefix: string, nodes: seq<RouterNode>,
                      chunks: seq<seq<RouterNode>>, siteToSite: bool)
    requires Chunking(chunks, nodes, MAX_INSTANCES_PER_SPOKE) && DistinctKeys(nodes, SelfLink)
    requires Exact(before, now, hub, prefix, chunks, siteToSite)
    ensures InPlace(now, hub, prefix, chunks, siteToSite) <==> forall n :: n in nodes ==> n.selfLink != ""
  {
    PermutationSameElements(nodes, Flatten(chunks));
    forall id ensures Listed(now, hub, prefix, id) ==> IsDesired(id, prefix, |chunks|) {
      if !IsDesired(id, prefix, |chunks|) {
        assert At(now, id) == if Listed(before, hub, prefix, id) then None else At(before, id);
      }
    }
    forall i | 0 <= i < |chunks|
      ensures var id := SpokeId(prefix, i);
              id in now && (Matches(now[id], chunks[i], siteToSite) <==>
                              forall n :: n in chunks[i] ==> n.selfLink != "")
    {
      var id := SpokeId(prefix, i);
      assert Reconciled(At(before, id), At(now, id), hub, chunks[i], siteToSite);
      ChunkNodes(nodes, chunks, i);
      HeldExactly(Seen(now[id]), chunks[i], siteToSite);
      WrittenMatches(chunks[i], siteToSite, now[id]);
    }
    forall n ensures n in nodes <==> exists i :: 0 <= i < |chunks| && n in chunks[i] {
      InFlatten(chunks, n);
    }
  }

  /** Each spoke ends with the 1 to 8 nodes of its chunk, whole. */
  lemma SpokeHoldsItsChunk(before: Store, now: Store, hub: string, prefix: string, nodes: seq<RouterNode>,
                           chunks: seq<seq<RouterNode>>, siteToSite: bool, i: nat)
    requires Chunking(chunks, nodes, MAX_INSTANCES_PER_SPOKE) && DistinctKeys(nodes, SelfLink)
    requires forall n :: n in nodes ==> n.selfLink != ""
    requires Exact(before, now, hub, prefix, chunks, siteToSite) && i < |chunks|
    ensures |chunks| == (|nodes| + 7) / 8
    ensures var id := SpokeId(prefix, i);
            && id in now && Seen(now[id]).siteToSite == siteToSite
            && Seen(now[id]).members.Keys == (set n | n in chunks[i] :: n.selfLink)
            && (forall n :: n in chunks[i] ==> Seen(now[id]).members[n.selfLink] == n.ip)
  {
    var id := SpokeId(prefix, i);
    assert Reconciled(At(before, id), At(now, id), hub, chunks[i], siteToSite);
    ChunkNodes(nodes, chunks, i);
    HeldExactly(Seen(now[id]), chunks[i], siteToSite);
    NodeMapOf(chunks[i]);
    assert NodeMap(chunks[i]) - {""} == NodeMap(chunks[i]);
  }

  /** Read off the linked instances themselves: site-to-site as asked, an instance for
      every node of the chunk with its self link and address, and, of instances of
      one machine the last counting, no other. */
  lemma SpokeLists(before: Store, now: Store, hub: string, prefix: string, nodes: seq<RouterNode>,
                   chunks: seq<seq<RouterNode>>, siteToSite: bool, i: nat)
    requires Chunking(chunks, nodes, MAX_INSTANCES_PER_SPOKE) && DistinctKeys(nodes, SelfLink)
    requires forall n :: n in nodes ==> n.selfLink != ""
    requires Exact(before, now, hub, prefix, chunks, siteToSite) && i < |chunks|
    ensures var id := prefix + "-" + Itoa(i);
            && id in now && now[id].linked.Some?
            && var linked := now[id].linked.value;
               && linked.siteToSite == siteToSite
               && (forall n :: n in chunks[i] ==> Instance(n.selfLink, n.ip) in linked.instances)
               && (forall x :: x in linked.instances && x != Missing && x.vm != "" ==>
                     exists n :: n in chunks[i] && n.selfLink == x.vm)
  {
    SpokeHoldsItsChunk(before, now, hub, prefix, nodes, chunks, siteToSite, i);
    var s, chunk := now[SpokeId(prefix, i)], chunks[i];
    assert |chunk| > 0;
    assert chunk[0] in chunk && chunk[0].selfLink in Seen(s).members;
    InstanceMapReads(s.linked.value.instances);
    forall n | n in chunk ensures Instance(n.selfLink, n.ip) in s.linked.value.instances {
      assert Seen(s).members[n.selfLink] == n.ip;
    }
    forall x | x in s.linked.value.instances && x != Missing && x.vm != ""
      ensures exists n :: n in chunk && n.selfLink == x.vm
    {
      assert x.vm in Seen(s).members;
    }
  }

  // ------------------------------------------------------------------- helpers

  lemma NumberingStep(before: Store, was: Store, now: Store, hub: string, prefix: string,
                      chunks: seq<seq<RouterNode>>, siteToSite: bool, k: nat)
    requires k < |chunks| && Numbering(before, was, hub, prefix, chunks, siteToSite, k)
    requires forall id :: id != SpokeId(prefix, k) ==> At(now, id) == At(was, id)
    ensures At(was, SpokeId(prefix, k)) == At(before, SpokeId(prefix, k))
    ensures Reconciled(At(was, SpokeId(prefix, k)), At(now, SpokeId(prefix, k)), hub, chunks[k], siteToSite) ==>
              Numbering(before, now, hub, prefix, chunks, siteToSite, k + 1)
    ensures At(now, SpokeId(prefix, k)) == At(was, SpokeId(prefix, k)) ==>
              OnTheWay(before, now, hub, prefix, chunks, siteToSite)
  {
    var mine := SpokeId(prefix, k);
    assert !IsDesired(mine, prefix, k) by {
      forall i | 0 <= i < k ensures mine != SpokeId(prefix, i) {
        SpokeIdsDistinct(prefix, i, k);
      }
    }
    forall i | 0 <= i < k ensures At(now, SpokeId(prefix, i)) == At(was, SpokeId(prefix, i)) {
      SpokeIdsDistinct(prefix, i, k);
    }
    forall id | !IsDesired(id, prefix, k + 1) ensures At(now, id) == At(before, id) {
      assert id != mine;
      assert !IsDesired(id, prefix, k);
    }
    if At(now, mine) == At(was, mine) {
      forall id ensures At(now, id) == At(was, id) {}
      NumberingOnTheWay(before, now, hub, prefix, chunks, siteToSite, k);
    }
  }

  lemma NumberingOnTheWay(before: Store, now: Store, hub: string, prefix: string, chunks: seq<seq<RouterNode>>,
                          siteToSite: bool, k: nat)
    requires k <= |chunks| && Numbering(before, now, hub, prefix, chunks, siteToSite, k)
    ensures OnTheWay(before, now, hub, prefix, chunks, siteToSite)
  {
    forall i | k <= i < |chunks| ensures At(now, SpokeId(prefix, i)) == At(before, SpokeId(prefix, i)) {
      forall j | 0 <= j < k ensures SpokeId(prefix, i) != SpokeId(prefix, j) {
        SpokeIdsDistinct(prefix, i, j);
      }
    }
    forall id | !IsDesired(id, prefix, |chunks|) ensures At(now, id) == At(before, id) {
      assert !IsDesired(id, prefix, k);
    }
  }

  /** The spokes still listed and not desired are the ones left to go. */
  ghost predicate Pruning(before: Store, now: Store, hub: string, prefix: string, n: nat, gone: seq<string>) {
    forall id :: At(now, id) == if id in gone && !IsDesired(id, prefix, n) then None else At(before, id)
  }

  lemma PruningStep(before: Store, was: Store, now: Store, hub: string, prefix: string, n: nat, gone: seq<string>,
                    id: string)
    requires Pruning(before, was, hub, prefix, n, gone)
    requires now == if IsDesired(id, prefix, n) then was else was - {id}
    ensures Pruning(before, now, hub, prefix, n, gone + [id])
  {
    forall other
      ensures At(now, other) == if other in gone + [id] && !IsDesired(other, prefix, n) then None else At(before, other)
    {
      assert At(was, other) == if other in gone && !IsDesired(other, prefix, n) then None else At(before, other);
      assert other in gone + [id] <==> other in gone || other == id;
    }
  }

  class Client {
    const project: string
    var spokes: Store
    /** Writes asked for, and how many of them were reported as done. */
    ghost var calls: nat
    ghost var done: nat

    constructor (project: string, s: Store)
      ensures this.project == project && spokes == s && calls == 0 && done == 0
    {
      this.project, spokes, calls, done := project, s, 0, 0;
    }

    method SpokeMatches(spoke: Spoke, nodes: seq<RouterNode>, siteToSite: bool) returns (same: bool)
      ensures same <==> Matches(spoke, nodes, siteToSite)
    {
      NodeMapOf(nodes);
      if spoke.linked.None? {
        assert nodes != [] ==> nodes[0].selfLink in NodeMap(nodes);
        return |nodes| == 0 && !siteToSite;
      }
      var linked := spoke.linked.value;
      if linked.siteToSite != siteToSite { return false; }
      var current := map[];
      for i := 0 to |linked.instances|
        invariant current == InstanceMap(linked.instances[..i])
      {
        assert linked.instances[..i + 1][..i] == linked.instances[..i];
        var inst := linked.instances[i];
        if !inst.Missing? && inst.vm != "" { current := current[inst.vm := inst.ip]; }
      }
      assert linked.instances[..|linked.instances|] == linked.instances;
      var desired := map[];
      for i := 0 to |nodes|
        invariant desired == NodeMap(nodes[..i])
      {
        assert nodes[..i + 1][..i] == nodes[..i];
        desired := desired[nodes[i].selfLink := nodes[i].ip];
      }
      assert nodes[..|nodes|] == nodes;
      return current == desired;
    }

    method ApplianceInstances(nodes: seq<RouterNode>) returns (insts: seq<Instance>, ghost order: seq<RouterNode>)
      ensures SortedBy(order, NodeName) && multiset(order) == multiset(nodes) && insts == Instances(order)
      ensures InstanceMap(insts) == NodeMap(order) - {""} && |insts| == |nodes|
    {
      var sorted := SortBy(nodes, NodeName);
      insts := [];
      for i := 0 to |sorted|
        invariant insts == Instances(sorted[..i])
      {
        assert sorted[..i + 1][..i] == sorted[..i];
        insts := insts + [Instance(sorted[i].selfLink, sorted[i].ip)];
      }
      assert sorted[..|sorted|] == sorted;
      InstancesRead(sorted);
      PermutationSameElements(nodes, sorted);
      order := sorted;
    }

    /** Creates the spoke, patches what differs, or does nothing. A write that
        fails may have been carried out. */
    method ReconcileSpoke(id: string, hubName: string, nodes: seq<RouterNode>, siteToSite: bool)
      returns (changed: bool, ok: bool)
      modifies this
      ensures forall other :: other != id ==> At(spokes, other) == At(old(spokes), other)
      ensures ok ==> Reconciled(At(old(spokes), id), At(spokes, id), HubPath(project, hubName), nodes, siteToSite)
      ensures !ok ==> !changed && (At(spokes, id) == At(old(spokes), id)
                       || Reconciled(At(old(spokes), id), At(spokes, id), HubPath(project, hubName), nodes, siteToSite))
      ensures done == old(done) + if changed then 1 else 0
      ensures id in old(spokes) && Matches(old(spokes)[id], nodes, siteToSite) ==>
                !changed && calls == old(calls) && spokes == old(spokes)
    {
      var hub := HubPath(project, hubName);
      if * { return false, false; }
      if id !in spokes {
        var insts;
        ghost var order;
        insts, order := ApplianceInstances(nodes);
        calls := calls + 1;
        if * { return false, false; }
        spokes := spokes[id := Spoke(hub, Some(Linked(siteToSite, insts)))];
        if * { return false, false; }
        done := done + 1;
        return true, true;
      }
      var same := SpokeMatches(spokes[id], nodes, siteToSite);
      if same {
        NodeMapOf(nodes);
        assert "" !in NodeMap(nodes) by { ReadHasNoNameless(spokes[id]); }
        assert NodeMap(nodes) - {""} == NodeMap(nodes);
        return false, true;
      }
      var insts;
      ghost var order;
      insts, order := ApplianceInstances(nodes);
      calls := calls + 1;
      if * { return false, false; }
      spokes := spokes[id := spokes[id].(linked := Some(Linked(siteToSite, insts)))];
      if * { return false, false; }
      done := done + 1;
      return true, true;
    }

    method DeleteSpoke(id: string) returns (deleted: bool, ok: bool)
      modifies this
      ensures spokes == old(spokes) || spokes == old(spokes) - {id}
      ensures ok ==> spokes == old(spokes) - {id} && (deleted <==> id in old(spokes))
      ensures !ok ==> !deleted
      ensures done == old(done) + if deleted then 1 else 0
    {
      calls := calls + 1;
      if * { return false, false; }
      deleted := id in spokes;
      spokes := spokes - {id};
      if deleted {
        if * { return false, false; }
        done := done + 1;
      }
      return deleted, true;
    }

    method ListSpokesByPrefix(hubName: string, prefix: string) returns (ok: bool, ids: seq<string>)
      ensures ok ==> forall id :: id in ids <==> Listed(spokes, HubPath(project, hubName), prefix, id)
    {
      var wantHub := HubPath(project, hubName);
      var found: seq<string> := [];
      var todo := spokes.Keys;
      while todo != {}
        invariant todo <= spokes.Keys
        invariant forall id :: id in found <==> id !in todo && Listed(spokes, wantHub, prefix, id)
      {
        if * { return false, []; }
        var id :| id in todo;
        todo := todo - {id};
        if spokes[id].hub != wantHub { continue; }
        if Numbered(id, prefix) { found := found + [id]; }
      }
      ids := SortBy(found, Identity);
      PermutationSameElements(found, ids);
      return true, ids;
    }

    /** The numbered spokes, one after the other. */
    method ReconcileDesired(hubName: string, prefix: string, siteToSite: bool, chunks: seq<seq<RouterNode>>,
                            desiredIDs: seq<string>)
      returns (changes: nat, ok: bool)
      requires |desiredIDs| == |chunks| && forall i :: 0 <= i < |chunks| ==> desiredIDs[i] == SpokeId(prefix, i)
      modifies this
      ensures var hub := HubPath(project, hubName);
              if ok then Numbering(old(spokes), spokes, hub, prefix, chunks, siteToSite, |chunks|)
              else OnTheWay(old(spokes), spokes, hub, prefix, chunks, siteToSite)
      ensures done == old(done) + changes
      ensures InPlace(old(spokes), HubPath(project, hubName), prefix, chunks, siteToSite) ==>
                changes == 0 && calls == old(calls) && spokes == old(spokes)
    {
      ghost var hub, before := HubPath(project, hubName), spokes;
      ghost var quiet := InPlace(spokes, hub, prefix, chunks, siteToSite);
      changes := 0;
      for i := 0 to |chunks|
        invariant Numbering(before, spokes, hub, prefix, chunks, siteToSite, i)
        invariant done == old(done) + changes
        invariant quiet ==> changes == 0 && calls == old(calls) && spokes == before
      {
        ghost var was := spokes;
        assert quiet ==> SpokeId(prefix, i) in before && Matches(before[SpokeId(prefix, i)], chunks[i], siteToSite);
        var changed;
        changed, ok := ReconcileSpoke(desiredIDs[i], hubName, chunks[i], siteToSite);
        NumberingStep(before, was, spokes, hub, prefix, chunks, siteToSite, i);
        if !ok {
          if At(spokes, desiredIDs[i]) != At(was, desiredIDs[i]) {
            NumberingOnTheWay(before, spokes, hub, prefix, chunks, siteToSite, i + 1);
          }
          return changes, false;
        }
        if changed { changes := changes + 1; }
      }
      return changes, true;
    }

    /** Deletes what is listed and not desired. */
    method DeleteStale(hubName: string, prefix: string, ghost n: nat, existing: seq<string>, desiredSet: set<string>)
      returns (changes: nat, ok: bool)
      requires forall id :: id in desiredSet <==> IsDesired(id, prefix, n)
      modifies this
      ensures exists gone :: gone <= existing
                             && Pruning(old(spokes), spokes, HubPath(project, hubName), prefix, n, gone)
      ensures ok ==> Pruning(old(spokes), spokes, HubPath(project, hubName), prefix, n, existing)
      ensures done == old(done) + changes
      ensures (forall id :: id in existing ==> id in desiredSet) ==>
                changes == 0 && calls == old(calls) && spokes == old(spokes)
    {
      ghost var hub, before := HubPath(project, hubName), spokes;
      ghost var quiet := forall id :: id in existing ==> id in desiredSet;
      changes := 0;
      for i := 0 to |existing|
        invariant Pruning(before, spokes, hub, prefix, n, existing[..i])
        invariant done == old(done) + changes
        invariant quiet ==> changes == 0 && calls == old(calls) && spokes == before
      {
        ghost var was, id := spokes, existing[i];
        assert existing[..i + 1] == existing[..i] + [id];
        ghost var pruned := if IsDesired(id, prefix, n) then was else was - {id};
        PruningStep(before, was, pruned, hub, prefix, n, existing[..i], id);
        assert existing[..i] <= existing && existing[..i + 1] <= existing;
        if existing[i] in desiredSet { continue; }
        var deleted;
        deleted, ok := DeleteSpoke(existing[i]);
        if !ok { return changes, false; }
        if deleted { changes := changes + 1; }
      }
      assert existing[..|existing|] == existing;
      return changes, true;
    }

    method ReconcileNCCSpokes(hubName: string, prefix: string, siteToSite: bool, routerNodes: seq<RouterNode>)
      returns (changes: nat, ok: bool, ghost chunks: seq<seq<RouterNode>>)
      modifies this
      ensures Chunking(chunks, routerNodes, MAX_INSTANCES_PER_SPOKE)
      ensures var hub := HubPath(project, hubName);
              if ok then Exact(old(spokes), spokes, hub, prefix, chunks, siteToSite)
              else OnTheWay(old(spokes), spokes, hub, prefix, chunks, siteToSite)
      ensures done == old(done) + changes
      ensures InPlace(old(spokes), HubPath(project, hubName), prefix, chunks, siteToSite) ==>
                changes == 0 && calls == old(calls) && spokes == old(spokes)
    {
      ghost var hub, before := HubPath(project, hubName), spokes;
      var cut := ChunkRouterNodes(routerNodes, MAX_INSTANCES_PER_SPOKE);
      chunks := cut;
      var desiredIDs: seq<string> := [];
      var desiredSet: set<string> := {};
      for i := 0 to |cut|
        invariant |desiredIDs| == i && forall j :: 0 <= j < i ==> desiredIDs[j] == SpokeId(prefix, j)
        invariant forall id :: id in desiredSet <==> IsDesired(id, prefix, i)
      {
        var id := SpokeId(prefix, i);
        desiredIDs := desiredIDs + [id];
        desiredSet := desiredSet + {id};
      }
      changes, ok := ReconcileDesired(hubName, prefix, siteToSite, cut, desiredIDs);
      if !ok { return changes, false, chunks; }
      ghost var middle := spokes;
      NumberingOnTheWay(before, middle, hub, prefix, chunks, siteToSite, |chunks|);
      var listed, existing := ListSpokesByPrefix(hubName, prefix);
      if !listed { return changes, false, chunks; }
      var more;
      more, ok := DeleteStale(hubName, prefix, |cut|, existing, desiredSet);
      Combine(before, middle, spokes, hub, prefix, chunks, siteToSite, existing, ok);
      return changes + more, ok, chunks;
    }

    /** On deletion of the configuration: every listed spoke goes. */
    method ReleaseSpokes(hubName: string, prefix: string) returns (ok: bool)
      modifies this
      ensures var hub := HubPath(project, hubName);
              if ok then Exact(old(spokes), spokes, hub, prefix, [], false)
              else OnTheWay(old(spokes), spokes, hub, prefix, [], false)
    {
      ghost var hub, before := HubPath(project, hubName), spokes;
      assert Numbering(before, before, hub, prefix, [], false, 0);
      NumberingOnTheWay(before, before, hub, prefix, [], false, 0);
      var listed, existing := ListSpokesByPrefix(hubName, prefix);
      if !listed { return false; }
      var n;
      n, ok := DeleteStale(hubName, prefix, 0, existing, {});
      Combine(before, before, spokes, hub, prefix, [], false, existing, ok);
    }
  }

  lemma {:induction false} NamelessNotRead(insts: seq<Instance>)
    ensures "" !in InstanceMap(insts)
  {
    if insts != [] { NamelessNotRead(insts[..|insts| - 1]); }
  }

  lemma ReadHasNoNameless(s: Spoke)
    ensures "" !in Seen(s).members
  {
    if s.linked.Some? { NamelessNotRead(s.linked.value.instances); }
  }

  lemma Combine(before: Store, middle: Store, now: Store, hub: string, prefix: string, chunks: seq<seq<RouterNode>>,
                siteToSite: bool, existing: seq<string>, ok: bool)
    requires Numbering(before, middle, hub, prefix, chunks, siteToSite, |chunks|)
    requires forall id :: id in existing <==> Listed(middle, hub, prefix, id)
    requires exists gone :: gone <= existing && Pruning(middle, now, hub, prefix, |chunks|, gone)
    requires ok ==> Pruning(middle, now, hub, prefix, |chunks|, existing)
    ensures OnTheWay(before, now, hub, prefix, chunks, siteToSite)
    ensures ok ==> Exact(before, now, hub, prefix, chunks, siteToSite)
  {
    var gone :| gone <= existing && Pruning(middle, now, hub, prefix, |chunks|, gone);
    var n := |chunks|;
    forall i | 0 <= i < n ensures At(now, SpokeId(prefix, i)) == At(middle, SpokeId(prefix, i)) {
      assert IsDesired(SpokeId(prefix, i), prefix, n);
    }
    forall id | !IsDesired(id, prefix, n)
      ensures At(now, id) == if id in gone then None else At(before, id)
      ensures id in existing <==> Listed(before, hub, prefix, id)
      ensures ok ==> At(now, id) == if Listed(before, hub, prefix, id) then None else At(before, id)
    {
      assert At(middle, id) == At(before, id);
      assert At(now, id) == if id in gone then None else At(middle, id);
      assert ok ==> At(now, id) == if id in existing then None else At(middle, id);
    }
  }
}
