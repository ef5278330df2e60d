/** What passes and clean-ups do to a Route Server that several clusters share. */
module AzureShared {
  import opened Options
  import opened AzureNames
  import opened AzureRouteServer
  import opened AzurePlatform
  import opened PlatformTypes

  /** A pass asking for some peerings or, asking for none, a clean-up; and whether it
      was done or broken off. */
  datatype Op = Op(cluster: string, asked: Store, done: bool)

  predicate Touches(op: Op, name: string) {
    IsOurPeering(name, op.cluster) || name in op.asked
  }

  /** A call during which nobody else writes. */
  ghost predicate Step(op: Op, before: Store, after: Store) {
    && (forall name :: !Touches(op, name) ==> At(after, name) == At(before, name))
    && (op.done ==> Made(before, op.asked, after, op.cluster))
  }

  /** What Platform.ReconcileNodes promises of an undisturbed call, whatever was
      trimmed, is a step of a run. */
  lemma CallIsStep(nodes: seq<RouterNode>, cluster: string, asn: int, ok: bool, before: Store, after: Store)
    requires Addressed(nodes) && (nodes == [] ==> after == before)
    requires OthersKept([after], before, before, cluster, AskedFor(nodes, cluster, asn).Keys)
    requires ok && nodes != [] ==> Made(before, AskedFor(nodes, cluster, asn), after, cluster)
    ensures Step(Op(cluster, AskedFor(nodes, cluster, asn), ok && nodes != []), before, after)
  {
    assert after in [after];
  }

  ghost predicate IsRun(ops: seq<Op>, states: seq<Store>) {
    && |states| == |ops| + 1
    && forall i :: 0 <= i < |ops| ==> Step(ops[i], states[i], states[i + 1])
  }

  /** Over any run, a peering that no call claims or asks for stays as it is. */
  lemma {:induction false} UnclaimedKept(ops: seq<Op>, states: seq<Store>, name: string)
    requires IsRun(ops, states) && forall i :: 0 <= i < |ops| ==> !Touches(ops[i], name)
    ensures At(states[|ops|], name) == At(states[0], name)
    decreases |ops|
  {
    if ops != [] {
      var n := |ops| - 1;
      UnclaimedKept(ops[..n], states[..n + 1], name);
      assert Step(ops[n], states[n], states[n + 1]);
    }
  }

  // ------------------------------------------------------------- separate clusters

  /** The call is by a cluster whose mark is separate, and asks for no name that
      the given cluster claims. */
  predicate KeepsClear(op: Op, cluster: string) {
    Separate(cluster, op.cluster) && forall name :: name in op.asked ==> !IsOurPeering(name, cluster)
  }

  /** It does when the cluster's mark begins nothing that is kept of a prefix. */
  lemma ClearByKept(nodes: seq<RouterNode>, c: string, asn: int, done: bool, cluster: string)
    requires Addressed(nodes)
    ensures KeepsClear(Op(c, AskedFor(nodes, c, asn), done), cluster) <==>
            && Separate(cluster, c)
            && forall n :: n in nodes ==> !(OwnerMark(cluster) <= Kept(c, n.privateIP) + "-")
  {
    var asked := AskedFor(nodes, c, asn);
    AskedIsExact(nodes, c, asn);
    forall n | n in nodes
      ensures PeeringName(c, n.privateIP) in asked
      ensures IsOurPeering(PeeringName(c, n.privateIP), cluster)
              <==> OwnerMark(cluster) <= Kept(c, n.privateIP) + "-"
    {
      assert At(asked, PeeringName(c, n.privateIP)).Some?;
      ClaimedByKept(c, n.privateIP, cluster);
    }
    hide AskedFor, PeeringName, Kept, OwnerMark, Separate, IsOurPeering;
    forall name | name in asked ensures exists n :: n in nodes && name == PeeringName(c, n.privateIP) {}
  }

  lemma ClearMeansUntouched(op: Op, cluster: string, name: string)
    requires KeepsClear(op, cluster) && IsOurPeering(name, cluster)
    ensures !Touches(op, name)
  {
    SeparateMeansNoSharedName(cluster, op.cluster);
  }

  lemma AtOwned(s: Store, cluster: string, name: string)
    ensures At(Owned(s, cluster), name) == if IsOurPeering(name, cluster) then At(s, name) else None
  {}

  /** Calls that keep clear of a cluster leave its peerings alone, broken off or
      not, trimmed or not. */
  lemma OwnKept(ops: seq<Op>, states: seq<Store>, cluster: string)
    requires IsRun(ops, states) && forall i :: 0 <= i < |ops| ==> KeepsClear(ops[i], cluster)
    ensures Owned(states[|ops|], cluster) == Owned(states[0], cluster)
  {
    var first, last := Owned(states[0], cluster), Owned(states[|ops|], cluster);
    forall name ensures At(last, name) == At(first, name) {
      AtOwned(states[0], cluster, name);
      AtOwned(states[|ops|], cluster, name);
      if IsOurPeering(name, cluster) {
        forall i | 0 <= i < |ops| ensures !Touches(ops[i], name) {
          ClearMeansUntouched(ops[i], cluster, name);
        }
        UnclaimedKept(ops, states, name);
      }
    }
    SameStore(last, first);
  }

  /** One outcome of a finished call: where a name is in the list twice, what is asked
      for counts. */
  function Outcome(op: Op, before: Store): Store {
    map name | name in before.Keys + op.asked.Keys && (name in op.asked || !IsOurPeering(name, op.cluster)) ::
      if name in op.asked then op.asked[name] else before[name]
  }

  lemma OutcomeIsStep(op: Op, before: Store)
    ensures Step(op, before, Outcome(op, before))
  {}

  ghost predicate NeverTakes(op: Op, cluster: string) {
    forall before, after :: Step(op, before, after) ==> Owned(after, cluster) == Owned(before, cluster)
  }

  /** Keeping clear is what it takes: any other call changes the cluster's own
      peerings on some Route Server. */
  lemma ClearExactly(op: Op, cluster: string)
    ensures KeepsClear(op, cluster) <==> NeverTakes(op, cluster)
  {
    if KeepsClear(op, cluster) {
      forall before, after | Step(op, before, after) ensures Owned(after, cluster) == Owned(before, cluster) {
        OwnKept([op], [before, after], cluster);
      }
    } else {
      var name := ClaimedAndTouched(op, cluster);
      var before: Store := if name in op.asked then map[] else map[name := Conn("", 0)];
      OutcomeIsStep(op, before);
      assert name in Owned(Outcome(op, before), cluster) <==> name !in Owned(before, cluster);
    }
  }

  lemma ClaimedAndTouched(op: Op, cluster: string) returns (name: string)
    requires !KeepsClear(op, cluster)
    ensures IsOurPeering(name, cluster) && Touches(op, name)
  {
    SeparateMeansNoSharedName(cluster, op.cluster);
    name :| IsOurPeering(name, cluster) && Touches(op, name);
  }

  /** At the end of any run each cluster has, of its own names, exactly what its last
      finished call asked for, if later calls keep clear of it; and a name it asked
      for and does not recognise is there too, if none of them touches it. */
  lemma LastCallDecides(ops: seq<Op>, states: seq<Store>, k: nat)
    requires IsRun(ops, states) && k < |ops| && ops[k].done
    requires forall i :: k < i < |ops| ==> KeepsClear(ops[i], ops[k].cluster)
    ensures Owned(states[|ops|], ops[k].cluster) == Owned(ops[k].asked, ops[k].cluster)
    ensures forall name :: name in ops[k].asked && (forall i :: k < i < |ops| ==> !Touches(ops[i], name)) ==>
              name in states[|ops|]
  {
    var cluster, last := ops[k].cluster, states[|ops|];
    var later, after := ops[k + 1..], states[k + 1..];
    OwnKept(later, after, cluster);
    assert after[|later|] == last;
    assert Step(ops[k], states[k], states[k + 1]);
    forall name ensures At(Owned(last, cluster), name) == At(Owned(ops[k].asked, cluster), name) {
      AtOwned(states[k + 1], cluster, name);
      AtOwned(ops[k].asked, cluster, name);
    }
    SameStore(Owned(last, cluster), Owned(ops[k].asked, cluster));
    forall name | name in ops[k].asked && (forall i :: k < i < |ops| ==> !Touches(ops[i], name))
      ensures name in last
    {
      UnclaimedKept(later, after, name);
      assert At(last, name) == At(states[k + 1], name);
    }
  }

  /** No name asked for is there already, unrecognised, with another connection: the
      list handed to the Route Server has one entry for each name. */
  predicate Unambiguous(op: Op, s: Store) {
    forall name :: name in op.asked && name in s && !IsOurPeering(name, op.cluster) ==> s[name] == op.asked[name]
  }

  lemma TouchedByOne(a: Op, b: Op, name: string)
    requires KeepsClear(a, b.cluster) && KeepsClear(b, a.cluster) && a.asked.Keys !! b.asked.Keys
    ensures !Touches(a, name) || !Touches(b, name)
  {
    SeparateMeansNoSharedName(a.cluster, b.cluster);
    assert name in a.asked ==> name !in b.asked;
  }

  /** A name the second call does not touch comes out of the first one the same. */
  lemma SameOutcome(a: Op, b: Op, s: Store, x: Store, y: Store, u: Store, v: Store, name: string)
    requires a.done && Unambiguous(a, s) && !Touches(b, name)
    requires Step(a, s, x) && Step(b, x, y) && Step(b, s, u) && Step(a, u, v)
    ensures At(y, name) == At(v, name)
  {
    assert At(y, name) == At(x, name) && At(u, name) == At(s, name);
    if Touches(a, name) {
      MadeAt(a, s, x, name);
      MadeAt(a, u, v, name);
    }
  }

  lemma MadeAt(op: Op, before: Store, after: Store, name: string)
    requires Step(op, before, after) && op.done && Touches(op, name)
    requires name in op.asked && name in before && !IsOurPeering(name, op.cluster) ==> before[name] == op.asked[name]
    ensures At(after, name) == At(op.asked, name)
  {}

  /** Finished calls of two clusters commute if they keep clear of each other and
      ask for different names, each once. */
  lemma StepsCommute(a: Op, b: Op, s: Store, x: Store, y: Store, u: Store, v: Store)
    requires KeepsClear(a, b.cluster) && KeepsClear(b, a.cluster) && a.asked.Keys !! b.asked.Keys
    requires a.done && b.done && Unambiguous(a, s) && Unambiguous(b, s)
    requires Step(a, s, x) && Step(b, x, y) && Step(b, s, u) && Step(a, u, v)
    ensures y == v
  {
    forall name ensures At(y, name) == At(v, name) {
      TouchedByOne(a, b, name);
      if Touches(a, name) {
        SameOutcome(a, b, s, x, y, u, v, name);
      } else {
        SameOutcome(b, a, s, u, v, x, y, name);
      }
    }
    SameStore(y, v);
  }

  /** Between separate clusters, calls all of whose names are recognised as the
      caller's own always do. */
  lemma OwnNamesCommute(a: Op, b: Op, s: Store)
    requires Separate(a.cluster, b.cluster)
    requires forall name :: name in a.asked ==> IsOurPeering(name, a.cluster)
    requires forall name :: name in b.asked ==> IsOurPeering(name, b.cluster)
    ensures KeepsClear(a, b.cluster) && KeepsClear(b, a.cluster) && a.asked.Keys !! b.asked.Keys
    ensures Unambiguous(a, s) && Unambiguous(b, s)
  {
    SeparateMeansNoSharedName(a.cluster, b.cluster);
  }

  // ------------------------------------------------------------------ trimmed names

  /** Where separate marks are not enough. The prefix of a longer ID, cut, can be a
      shorter one's whole: the two clusters then share the name of an address, and
      a pass of the one takes the other's peering. */
  lemma TrimmedTakesPeering(d: string, n: RouterNode, asn: int, other: int)
    requires IsAddress(n.privateIP) && |d| + |n.privateIP| == 75 && asn != other
    ensures var c, name := d + "-bgpz", PeeringName(d, n.privateIP);
            && Separate(c, d) && PeeringName(c, n.privateIP) == name
            && var before := map[name := Conn(n.privateIP, other)];
               var op := Op(c, AskedFor([n], c, asn), true);
               && Step(op, before, op.asked) && !KeepsClear(op, d)
               && Owned(op.asked, d) != Owned(before, d)
  {
    var c, a := d + "-bgpz", n.privateIP;
    var name := PeeringName(d, a);
    assert PeeringPrefix(c)[..79 - |a|] == PeeringPrefix(d);
    assert Kept(c, a) == Kept(d, a);
    NamesMeetExactly(c, a, d, a);
    OwnPeeringRecognised(d, a) by { AddressFacts(a); }
    assert OwnerMark(c)[|d| + 4] == 'z' && OwnerMark(d)[|d| + 4] == '-';
    var before, asked := map[name := Conn(a, other)], map[name := Conn(a, asn)];
    assert AskedFor([n], c, asn) == asked by { assert [n][..0] == []; }
    assert At(Owned(asked, d), name) != At(Owned(before, d), name);
  }
}
