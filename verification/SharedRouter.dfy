/** What reconciling and clearing do to a router that several clusters share. */
module SharedRouter {
  import opened Text
  import opened Sorting
  import opened PeerNames
  import opened GcpTypes
  import opened CloudRouter

  /** A list of the peers one cluster may ask for. */
  ghost predicate OwnList(digest: string -> string, cluster: string, ps: seq<Entry>) {
    forall p :: p in ps ==> Ours(digest, cluster, p) && p.rest == ""
  }

  lemma DesiredIsOwnList(ps: seq<Entry>, digest: string -> string, cluster: string, nodes: seq<RouterNode>,
                         topology: Topology, asn: int)
    requires IsDesired(ps, digest, cluster, nodes, topology, asn)
    ensures OwnList(digest, cluster, ps)
  {
    AllPeersAreOurs(digest, cluster, nodes, topology, asn);
    PermutationSameElements(ps, AllPeers(digest, cluster, nodes, topology, asn));
  }

  // -------------------------------------------------- one pass and its own peers

  lemma KeysSplit(digest: string -> string, cluster: string, ps: seq<Entry>)
    ensures Keys(ps) == Keys(Foreign(digest, cluster, ps)) + Keys(Slice(digest, cluster, ps))
    ensures forall k :: k in Keys(Foreign(digest, cluster, ps)) ==> !Ours(digest, cluster, k)
    ensures forall k :: k in Keys(Slice(digest, cluster, ps)) ==> Ours(digest, cluster, k)
  {
    MembersOf(digest, cluster, ps);
    forall k | k in Keys(ps)
      ensures k in Keys(Foreign(digest, cluster, ps)) || k in Keys(Slice(digest, cluster, ps))
    {
      var p :| p in ps && p.Peer? && Key(p) == k;
      if Ours(digest, cluster, p) {
        assert p in Slice(digest, cluster, ps);
      } else {
        assert p in Foreign(digest, cluster, ps);
      }
    }
  }

  lemma OwnListKeys(digest: string -> string, cluster: string, ps: seq<Entry>)
    requires OwnList(digest, cluster, ps)
    ensures forall k :: k in Keys(ps) ==> Ours(digest, cluster, k)
    ensures Keys(ps) == {} <==> ps == []
  {
    if ps != [] { assert ps[0] in ps && Key(ps[0]) in Keys(ps); }
  }

  lemma KeysUnion(a: seq<Entry>, b: seq<Entry>)
    ensures Keys(a + b) == Keys(a) + Keys(b)
  {}

  /** A pass decides to write exactly when the cluster's own peers differ from
      the desired ones; nobody else's peers enter into it. */
  lemma WriteDecision(digest: string -> string, cluster: string, desired: seq<Entry>, before: seq<Entry>)
    requires OwnList(digest, cluster, desired)
    ensures Keys(before) == Keys(Foreign(digest, cluster, before) + desired) <==>
            Keys(Slice(digest, cluster, before)) == Keys(desired)
  {
    var foreign := Foreign(digest, cluster, before);
    KeysSplit(digest, cluster, before);
    OwnListKeys(digest, cluster, desired);
    KeysUnion(foreign, desired);
    if Keys(before) == Keys(foreign + desired) {
      forall k | k in Keys(desired) ensures k in Keys(Slice(digest, cluster, before)) {}
      forall k | k in Keys(Slice(digest, cluster, before)) ensures k in Keys(desired) {}
    }
  }

  lemma MergeSlices(out: seq<Entry>, digest: string -> string, cluster: string, existing: seq<Entry>,
                    desired: seq<Entry>)
    requires IsMerge(out, digest, cluster, existing, desired) && OwnList(digest, cluster, desired)
    ensures multiset(Slice(digest, cluster, out)) == multiset(desired)
    ensures multiset(Foreign(digest, cluster, out)) == multiset(Foreign(digest, cluster, existing))
    ensures Nil !in out
  {
    forall p
      ensures multiset(Slice(digest, cluster, out))[p] == multiset(desired)[p]
      ensures multiset(Foreign(digest, cluster, out))[p] == multiset(Foreign(digest, cluster, existing))[p]
    {
      SliceCount(digest, cluster, out, p);
      ForeignCount(digest, cluster, out, p);
      ForeignCount(digest, cluster, existing, p);
      assert multiset(desired)[p] > 0 ==> p in desired;
      assert multiset(out)[p] == multiset(Foreign(digest, cluster, existing))[p] + multiset(desired)[p];
    }
    MergedKeys(out, digest, cluster, existing, desired);
    MembersOf(digest, cluster, existing);
  }

  lemma SamePeersSameKeys(a: seq<Entry>, b: seq<Entry>)
    requires multiset(a) == multiset(b)
    ensures Keys(a) == Keys(b)
  {
    PermutationSameElements(a, b);
  }

  /** What a finished pass leaves. The peers of everyone else are exactly what
      they were. The cluster's own are the desired ones, except in one case: no
      peer is desired, the router holds nobody else's, and there was something
      to remove. Then the patch carries no array, nothing is removed, and the
      pass reports a change all the same. */
  lemma ReconcileReaches(digest: string -> string, cluster: string, desired: seq<Entry>,
                         before: seq<Entry>, after: seq<Entry>, changed: bool)
    requires OwnList(digest, cluster, desired)
    requires ReconcileStep(digest, cluster, desired, before, after, changed)
    ensures multiset(Foreign(digest, cluster, after)) == multiset(Foreign(digest, cluster, before))
    ensures Keys(Slice(digest, cluster, after)) == Keys(desired) <==>
            desired != [] || Foreign(digest, cluster, before) != [] || Slice(digest, cluster, before) == []
    ensures changed <==> Keys(Slice(digest, cluster, before)) != Keys(desired)
  {
    WriteDecision(digest, cluster, desired, before);
    var foreign, mine := Foreign(digest, cluster, before), Slice(digest, cluster, before);
    MembersOf(digest, cluster, before);
    if mine != [] { assert mine[0] in mine; assert Key(mine[0]) in Keys(mine); }
    if changed && foreign + desired != [] {
      MergeSlices(after, digest, cluster, before, desired);
      SamePeersSameKeys(Slice(digest, cluster, after), desired);
    }
  }

  /** A router for which the exception applies: one left-over peer of the
      cluster's own and a topology without interfaces. Every such call claims to
      have changed the router and none does. The platform reads the topology
      twice in a pass and refuses one without interfaces the first time, so for
      this to happen they have to go in between. */
  lemma EmptyDesiredIsLost(digest: string -> string, cluster: string, leftOver: Entry)
    requires Ours(digest, cluster, leftOver)
    ensures IsDesired([], digest, cluster, [RouterNode("n", "l", "10.0.0.4")], Topology([], []), 65001)
    ensures ReconcileStep(digest, cluster, [], [leftOver], [leftOver], true)
    ensures !ReconcileStep(digest, cluster, [], [leftOver], [], true)
  {
    var ps := [leftOver];
    assert Foreign(digest, cluster, ps) == [] by { assert ps[..0] == []; }
    assert Key(leftOver) in Keys(ps);
    var nodes := [RouterNode("n", "l", "10.0.0.4")];
    assert nodes[..0] == [];
  }

  /** A second pass after one that reached the desired peers writes nothing. */
  lemma SecondPassIsQuiet(digest: string -> string, cluster: string, desired: seq<Entry>,
                          before: seq<Entry>, after: seq<Entry>, changed: bool, last: seq<Entry>, again: bool)
    requires OwnList(digest, cluster, desired)
    requires ReconcileStep(digest, cluster, desired, before, after, changed)
    requires ReconcileStep(digest, cluster, desired, after, last, again)
    ensures again <==> desired == [] && Foreign(digest, cluster, before) == [] && Slice(digest, cluster, before) != []
    ensures last == after
  {
    ReconcileReaches(digest, cluster, desired, before, after, changed);
    ReconcileReaches(digest, cluster, desired, after, last, again);
    PermutationSameElements(Foreign(digest, cluster, after), Foreign(digest, cluster, before));
  }

  lemma ClearReaches(digest: string -> string, cluster: string, before: seq<Entry>, after: seq<Entry>, changed: bool)
    requires ClearStep(digest, cluster, before, after, changed)
    ensures Slice(digest, cluster, after) == []
    ensures multiset(Foreign(digest, cluster, after)) == multiset(Foreign(digest, cluster, before))
  {
    if changed {
      MergeSlices(after, digest, cluster, before, []);
      PermutationSameElements(Slice(digest, cluster, after), []);
    } else {
      ForeignLength(digest, cluster, before);
    }
  }

  lemma {:induction false} ForeignLength(digest: string -> string, cluster: string, ps: seq<Entry>)
    ensures |Foreign(digest, cluster, ps)| + |Slice(digest, cluster, ps)| <= |ps|
    ensures |Foreign(digest, cluster, ps)| == |ps| ==> Nil !in ps
  {
    if ps != [] {
      ForeignLength(digest, cluster, ps[..|ps| - 1]);
      assert ps == ps[..|ps| - 1] + [ps[|ps| - 1]];
    }
  }

  // ------------------------------------------------------------------ whole runs

  datatype Op =
    | Reconcile(cluster: string, desired: seq<Entry>)
    | Clear(cluster: string)

  ghost predicate Step(digest: string -> string, op: Op, before: seq<Entry>, after: seq<Entry>) {
    match op
    case Reconcile(cluster, desired) =>
      && OwnList(digest, cluster, desired)
      && exists changed :: ReconcileStep(digest, cluster, desired, before, after, changed)
    case Clear(cluster) =>
      exists changed :: ClearStep(digest, cluster, before, after, changed)
  }

  /** What Router.ReconcilePeers promises of a call is a step of a run. */
  lemma CallIsStep(digest: string -> string, cluster: string, nodes: seq<RouterNode>, topology: Topology, asn: int,
                   desired: seq<Entry>, before: seq<Entry>, after: seq<Entry>, changed: bool)
    requires IsDesired(desired, digest, cluster, nodes, topology, asn)
    requires ReconcileStep(digest, cluster, desired, before, after, changed)
    ensures Step(digest, Reconcile(cluster, desired), before, after)
  {
    DesiredIsOwnList(desired, digest, cluster, nodes, topology, asn);
  }

  /** A run of any clusters' calls, in any order, from one router state to the
      next. A call that failed either did nothing, and is left out, or was
      carried out, and is in. */
  ghost predicate IsRun(digest: string -> string, ops: seq<Op>, states: seq<seq<Entry>>) {
    && |states| == |ops| + 1
    && forall i :: 0 <= i < |ops| ==> Step(digest, ops[i], states[i], states[i + 1])
  }

  ghost predicate AllSeparate(digest: string -> string, ops: seq<Op>) {
    forall i, j :: 0 <= i < |ops| && 0 <= j < |ops| && ops[i].cluster != ops[j].cluster ==>
      Separate(digest, ops[i].cluster, ops[j].cluster)
  }

  /** A step changes no peer it does not own. */
  lemma StepKeepsOthers(digest: string -> string, op: Op, before: seq<Entry>, after: seq<Entry>, p: Entry)
    requires Step(digest, op, before, after) && p.Peer? && !Ours(digest, op.cluster, p)
    ensures multiset(after)[p] == multiset(before)[p]
  {
    match op {
      case Reconcile(cluster, desired) =>
        var changed :| ReconcileStep(digest, cluster, desired, before, after, changed);
        ReconcileReaches(digest, cluster, desired, before, after, changed);
      case Clear(cluster) =>
        var changed :| ClearStep(digest, cluster, before, after, changed);
        ClearReaches(digest, cluster, before, after, changed);
    }
    ForeignCount(digest, op.cluster, before, p);
    ForeignCount(digest, op.cluster, after, p);
  }

  /** Over any run, a peer claimed by none of the clusters at work keeps its
      place on the router. */
  lemma {:induction false} UnclaimedPeersKept(digest: string -> string, ops: seq<Op>, states: seq<seq<Entry>>,
                                              p: Entry)
    requires IsRun(digest, ops, states) && p.Peer?
    requires forall i :: 0 <= i < |ops| ==> !Ours(digest, ops[i].cluster, p)
    ensures multiset(states[|ops|])[p] == multiset(states[0])[p]
    decreases |ops|
  {
    if ops != [] {
      var n := |ops| - 1;
      UnclaimedPeersKept(digest, ops[..n], states[..n + 1], p);
      StepKeepsOthers(digest, ops[n], states[n], states[n + 1], p);
    }
  }

  lemma OthersStepsKeepSlice(digest: string -> string, ops: seq<Op>, states: seq<seq<Entry>>, cluster: string)
    requires IsRun(digest, ops, states)
    requires forall i :: 0 <= i < |ops| ==> Separate(digest, cluster, ops[i].cluster)
    ensures multiset(Slice(digest, cluster, states[|ops|])) == multiset(Slice(digest, cluster, states[0]))
  {
    forall p
      ensures multiset(Slice(digest, cluster, states[|ops|]))[p] == multiset(Slice(digest, cluster, states[0]))[p]
    {
      SliceCount(digest, cluster, states[|ops|], p);
      SliceCount(digest, cluster, states[0], p);
      if Ours(digest, cluster, p) {
        forall i | 0 <= i < |ops| ensures !Ours(digest, ops[i].cluster, p) {
          SeparateMeansNoSharedName(digest, cluster, ops[i].cluster);
        }
        UnclaimedPeersKept(digest, ops, states, p);
      }
    }
  }

  /** What a cluster's last call leaves on the router at the end of any run of
      separate clusters' calls: nothing after ClearPeers, and after ReconcilePeers
      the desired peers, unless, and only if, it was the call whose patch is
      lost. */
  lemma LastCallDecides(digest: string -> string, ops: seq<Op>, states: seq<seq<Entry>>, k: nat)
    requires IsRun(digest, ops, states) && AllSeparate(digest, ops)
    requires k < |ops| && forall i :: k < i < |ops| ==> ops[i].cluster != ops[k].cluster
    ensures ops[k].Clear? ==> Slice(digest, ops[k].cluster, states[|ops|]) == []
    ensures ops[k].Reconcile? ==>
              (Keys(Slice(digest, ops[k].cluster, states[|ops|])) == Keys(ops[k].desired) <==>
               || ops[k].desired != []
               || Foreign(digest, ops[k].cluster, states[k]) != []
               || Slice(digest, ops[k].cluster, states[k]) == [])
  {
    var cluster := ops[k].cluster;
    OthersStepsKeepSlice(digest, ops[k + 1..], states[k + 1..], cluster);
    var early, late := Slice(digest, cluster, states[k + 1]), Slice(digest, cluster, states[|ops|]);
    assert states[k + 1..][|ops| - k - 1] == states[|ops|];
    PermutationSameElements(early, late);
    SamePeersSameKeys(early, late);
    match ops[k] {
      case Reconcile(_, desired) =>
        var changed :| ReconcileStep(digest, cluster, desired, states[k], states[k + 1], changed);
        ReconcileReaches(digest, cluster, desired, states[k], states[k + 1], changed);
      case Clear(_) =>
        var changed :| ClearStep(digest, cluster, states[k], states[k + 1], changed);
        ClearReaches(digest, cluster, states[k], states[k + 1], changed);
    }
  }

  // ---------------------------------------------------------------- commutation

  predicate Writes(digest: string -> string, op: Op, before: seq<Entry>) {
    match op
    case Reconcile(cluster, desired) => Keys(Slice(digest, cluster, before)) != Keys(desired)
    case Clear(cluster) => |Foreign(digest, cluster, before)| != |before|
  }

  /** The call whose write is lost: nothing is desired, nobody else is on the
      router, and there is something to remove. */
  predicate Lost(digest: string -> string, op: Op, before: seq<Entry>) {
    && op.Reconcile? && op.desired == []
    && Foreign(digest, op.cluster, before) == [] && Slice(digest, op.cluster, before) != []
  }

  /** The write is made and carried out. */
  predicate Lands(digest: string -> string, op: Op, before: seq<Entry>) {
    Writes(digest, op, before) && !Lost(digest, op, before)
  }

  /** The whole outcome of a call, from the cluster's own peers. */
  lemma StepOutcome(digest: string -> string, op: Op, before: seq<Entry>, after: seq<Entry>)
    requires Step(digest, op, before, after)
    ensures !Lands(digest, op, before) ==> after == before
    ensures Lands(digest, op, before) ==> SortedBy(after, Name) && Nil !in after
    ensures multiset(Slice(digest, op.cluster, after)) ==
            if op.Clear? then multiset{}
            else if Lands(digest, op, before) then multiset(op.desired)
            else multiset(Slice(digest, op.cluster, before))
  {
    match op {
      case Reconcile(cluster, desired) =>
        var changed :| ReconcileStep(digest, cluster, desired, before, after, changed);
        WriteDecision(digest, cluster, desired, before);
        NothingOfOwn(digest, cluster, before);
        if Lands(digest, op, before) { MergeSlices(after, digest, cluster, before, desired); }
      case Clear(cluster) =>
        var changed :| ClearStep(digest, cluster, before, after, changed);
        ClearReaches(digest, cluster, before, after, changed);
        if changed { MergeSlices(after, digest, cluster, before, []); }
    }
  }

  lemma NothingOfOwn(digest: string -> string, cluster: string, ps: seq<Entry>)
    ensures Keys(Slice(digest, cluster, ps)) == {} <==> Slice(digest, cluster, ps) == []
  {
    MembersOf(digest, cluster, ps);
    var own := Slice(digest, cluster, ps);
    if own != [] { assert own[0] in own && Key(own[0]) in Keys(own); }
  }

  lemma SliceUntouched(digest: string -> string, op: Op, before: seq<Entry>, after: seq<Entry>, cluster: string)
    requires Step(digest, op, before, after) && Separate(digest, cluster, op.cluster)
    ensures multiset(Slice(digest, cluster, after)) == multiset(Slice(digest, cluster, before))
    ensures Keys(Slice(digest, cluster, after)) == Keys(Slice(digest, cluster, before))
    ensures Slice(digest, cluster, after) == [] <==> Slice(digest, cluster, before) == []
  {
    var states := [before, after];
    OthersStepsKeepSlice(digest, [op], states, cluster);
    SamePeersSameKeys(Slice(digest, cluster, after), Slice(digest, cluster, before));
    NothingOfOwn(digest, cluster, before);
    NothingOfOwn(digest, cluster, after);
  }

  // ------------------------------------------------- who is on the router besides

  /** Some peer belongs to neither cluster. */
  ghost predicate OthersToo(digest: string -> string, c: string, d: string, s: seq<Entry>) {
    exists p :: p in s && p.Peer? && !Ours(digest, c, p) && !Ours(digest, d, p)
  }

  lemma AloneWithOne(digest: string -> string, c: string, d: string, s: seq<Entry>)
    requires Separate(digest, c, d)
    ensures Foreign(digest, c, s) == [] <==> !OthersToo(digest, c, d, s) && Slice(digest, d, s) == []
  {
    MembersOf(digest, c, s);
    MembersOf(digest, d, s);
    SeparateMeansNoSharedName(digest, c, d);
    var f, own := Foreign(digest, c, s), Slice(digest, d, s);
    if f != [] { assert f[0] in f && f[0] in s; }
    if own != [] { assert own[0] in own && own[0] in s; }
    if OthersToo(digest, c, d, s) {
      var p :| p in s && p.Peer? && !Ours(digest, c, p) && !Ours(digest, d, p);
      assert p in f;
    }
    if f != [] && Slice(digest, d, s) == [] {
      assert f[0] !in own;
    }
  }

  lemma OthersStay(digest: string -> string, c: string, d: string, op: Op, before: seq<Entry>, after: seq<Entry>)
    requires Step(digest, op, before, after) && op.cluster in {c, d}
    ensures OthersToo(digest, c, d, after) <==> OthersToo(digest, c, d, before)
  {
    if OthersToo(digest, c, d, before) {
      var p :| p in before && p.Peer? && !Ours(digest, c, p) && !Ours(digest, d, p);
      StepKeepsOthers(digest, op, before, after, p);
      assert p in multiset(after);
    }
    if OthersToo(digest, c, d, after) {
      var p :| p in after && p.Peer? && !Ours(digest, c, p) && !Ours(digest, d, p);
      StepKeepsOthers(digest, op, before, after, p);
      assert p in multiset(before);
    }
  }

  /** A call after which its cluster has no peers, if it lands. */
  predicate Empties(op: Op) {
    op.Clear? || op.desired == []
  }

  /** When it matters to a call whether b comes before it: it desires nothing and
      has something to remove, nobody else is on the router but b's cluster, and b
      turns that from having peers to having none or the other way round. */
  ghost predicate Upset(digest: string -> string, a: Op, b: Op, s: seq<Entry>) {
    && a.Reconcile? && a.desired == [] && Slice(digest, a.cluster, s) != []
    && !OthersToo(digest, a.cluster, b.cluster, s)
    && (Empties(b) <==> Slice(digest, b.cluster, s) != [])
  }

  /** Whether the write is lost changes exactly when b upsets it. */
  lemma LostExactly(digest: string -> string, a: Op, b: Op, s: seq<Entry>, u: seq<Entry>)
    requires Separate(digest, a.cluster, b.cluster) && Step(digest, b, s, u)
    ensures Lost(digest, a, u) != Lost(digest, a, s) <==> Upset(digest, a, b, s)
  {
    SliceUntouched(digest, b, s, u, a.cluster);
    OthersStay(digest, a.cluster, b.cluster, b, s, u);
    AloneWithOne(digest, a.cluster, b.cluster, s);
    AloneWithOne(digest, a.cluster, b.cluster, u);
    if Slice(digest, a.cluster, s) != [] { EmptyAfter(digest, a.cluster, b, s, u); }
  }

  /** With a peer of another cluster there, b's write is not lost, so afterwards b's
      cluster is as b would have it. */
  lemma EmptyAfter(digest: string -> string, c: string, b: Op, s: seq<Entry>, u: seq<Entry>)
    requires Separate(digest, c, b.cluster) && Step(digest, b, s, u) && Slice(digest, c, s) != []
    ensures Slice(digest, b.cluster, u) == [] <==> Empties(b)
  {
    MembersOf(digest, c, s);
    MembersOf(digest, b.cluster, s);
    SeparateMeansNoSharedName(digest, c, b.cluster);
    var own := Slice(digest, c, s);
    assert own[0] in own && own[0] in Foreign(digest, b.cluster, s);
    match b {
      case Reconcile(d, desired) =>
        var changed :| ReconcileStep(digest, d, desired, s, u, changed);
        ReconcileReaches(digest, d, desired, s, u, changed);
        NothingOfOwn(digest, d, u);
        OwnListKeys(digest, d, desired);
      case Clear(d) =>
        var changed :| ClearStep(digest, d, s, u, changed);
        ClearReaches(digest, d, s, u, changed);
    }
  }

  /** The first call leaves the same own peers whether it comes first or second,
      exactly when the other does not upset it. */
  lemma OwnEitherOrder(digest: string -> string, a: Op, b: Op, s: seq<Entry>, x: seq<Entry>, y: seq<Entry>,
                       u: seq<Entry>, v: seq<Entry>)
    requires Separate(digest, a.cluster, b.cluster)
    requires Step(digest, a, s, x) && Step(digest, b, x, y)
    requires Step(digest, b, s, u) && Step(digest, a, u, v)
    ensures multiset(Slice(digest, a.cluster, y)) == multiset(Slice(digest, a.cluster, v)) <==> !Upset(digest, a, b, s)
  {
    StepOutcome(digest, a, s, x);
    SliceUntouched(digest, b, x, y, a.cluster);
    SliceUntouched(digest, b, s, u, a.cluster);
    StepOutcome(digest, a, u, v);
    LostExactly(digest, a, b, s, u);
    NothingOfOwn(digest, a.cluster, s);
    NothingOfOwn(digest, a.cluster, u);
    OwnCounts(digest, a.cluster, s);
    OwnCounts(digest, a.cluster, u);
  }

  lemma OwnCounts(digest: string -> string, cluster: string, s: seq<Entry>)
    ensures multiset(Slice(digest, cluster, s)) == multiset{} <==> Slice(digest, cluster, s) == []
  {
    assert |multiset(Slice(digest, cluster, s))| == |Slice(digest, cluster, s)|;
  }

  /** The two orders leave the same peers. */
  ghost predicate SamePeers(y: seq<Entry>, v: seq<Entry>) {
    forall p: Entry :: p.Peer? ==> multiset(y)[p] == multiset(v)[p]
  }

  lemma SameSlices(digest: string -> string, cluster: string, y: seq<Entry>, v: seq<Entry>)
    requires SamePeers(y, v)
    ensures multiset(Slice(digest, cluster, y)) == multiset(Slice(digest, cluster, v))
  {
    forall p ensures multiset(Slice(digest, cluster, y))[p] == multiset(Slice(digest, cluster, v))[p] {
      SliceCount(digest, cluster, y, p);
      SliceCount(digest, cluster, v, p);
    }
  }

  lemma SameCountEitherOrder(digest: string -> string, a: Op, b: Op, s: seq<Entry>, x: seq<Entry>, y: seq<Entry>,
                             u: seq<Entry>, v: seq<Entry>, p: Entry)
    requires Step(digest, a, s, x) && Step(digest, b, x, y)
    requires Step(digest, b, s, u) && Step(digest, a, u, v)
    requires multiset(Slice(digest, a.cluster, y)) == multiset(Slice(digest, a.cluster, v))
    requires multiset(Slice(digest, b.cluster, y)) == multiset(Slice(digest, b.cluster, v))
    requires p.Peer?
    ensures multiset(y)[p] == multiset(v)[p]
  {
    if Ours(digest, a.cluster, p) {
      SliceCount(digest, a.cluster, y, p);
      SliceCount(digest, a.cluster, v, p);
    } else if Ours(digest, b.cluster, p) {
      SliceCount(digest, b.cluster, y, p);
      SliceCount(digest, b.cluster, v, p);
    } else {
      StepKeepsOthers(digest, a, s, x, p);
      StepKeepsOthers(digest, b, x, y, p);
      StepKeepsOthers(digest, b, s, u, p);
      StepKeepsOthers(digest, a, u, v, p);
    }
  }

  /** Two calls either both leave the list alone, or leave an ordered one. */
  lemma OrderedUnlessQuiet(digest: string -> string, a: Op, b: Op, s: seq<Entry>, x: seq<Entry>, y: seq<Entry>)
    requires Step(digest, a, s, x) && Step(digest, b, x, y)
    ensures if Lands(digest, a, s) || Lands(digest, b, s) then SortedBy(y, Name) && Nil !in y else y == s
  {
    StepOutcome(digest, a, s, x);
    StepOutcome(digest, b, x, y);
  }

  /** Calls of two separate clusters commute exactly when neither upsets the other:
      then the two orders leave the same peers and, peer names being unique on the
      router, the same list; otherwise they do not. */
  lemma StepsCommute(digest: string -> string, a: Op, b: Op, s: seq<Entry>, x: seq<Entry>, y: seq<Entry>,
                     u: seq<Entry>, v: seq<Entry>)
    requires Separate(digest, a.cluster, b.cluster)
    requires Step(digest, a, s, x) && Step(digest, b, x, y)
    requires Step(digest, b, s, u) && Step(digest, a, u, v)
    ensures SamePeers(y, v) <==> !Upset(digest, a, b, s) && !Upset(digest, b, a, s)
    ensures SamePeers(y, v) && DistinctKeys(y, Name) ==> y == v
  {
    OwnEitherOrder(digest, a, b, s, x, y, u, v);
    OwnEitherOrder(digest, b, a, s, u, v, x, y);
    if SamePeers(y, v) {
      SameSlices(digest, a.cluster, y, v);
      SameSlices(digest, b.cluster, y, v);
      SameList(digest, a, b, s, x, y, u, v);
    } else if !Upset(digest, a, b, s) && !Upset(digest, b, a, s) {
      forall p: Entry | p.Peer? ensures multiset(y)[p] == multiset(v)[p] {
        SameCountEitherOrder(digest, a, b, s, x, y, u, v, p);
      }
    }
  }

  lemma SameList(digest: string -> string, a: Op, b: Op, s: seq<Entry>, x: seq<Entry>, y: seq<Entry>,
                 u: seq<Entry>, v: seq<Entry>)
    requires Step(digest, a, s, x) && Step(digest, b, x, y)
    requires Step(digest, b, s, u) && Step(digest, a, u, v)
    requires SamePeers(y, v)
    ensures DistinctKeys(y, Name) ==> y == v
  {
    OrderedUnlessQuiet(digest, a, b, s, x, y);
    OrderedUnlessQuiet(digest, b, a, s, u, v);
    if DistinctKeys(y, Name) && (Lands(digest, a, s) || Lands(digest, b, s)) {
      assert Nil !in multiset(y) && Nil !in multiset(v);
      assert multiset(y) == multiset(v);
      SortedUnique(y, v, Name);
    }
  }

  /** A router on which the order matters: a peer of each of two clusters and no
      other, one cluster desiring nothing and the other leaving. In one order both
      peers go, in the other the first cluster's stays. */
  lemma OrderMatters(digest: string -> string, c: string, d: string, p: Entry, q: Entry)
    requires Separate(digest, c, d) && Ours(digest, c, p) && Ours(digest, d, q)
    ensures Upset(digest, Reconcile(c, []), Clear(d), [p, q])
    ensures Step(digest, Reconcile(c, []), [p, q], [q]) && Step(digest, Clear(d), [q], [])
    ensures Step(digest, Clear(d), [p, q], [p]) && Step(digest, Reconcile(c, []), [p], [p])
  {
    SeparateMeansNoSharedName(digest, c, d);
    MembersOf(digest, c, [p, q]);
    MembersOf(digest, d, [p, q]);
    assert p in Slice(digest, c, [p, q]) && q in Slice(digest, d, [p, q]);
    ForeignOfTwo(digest, c, p, q);
    ForeignOfTwo(digest, d, p, q);
    ForeignOfOne(digest, c, p);
    ForeignOfOne(digest, d, q);
    assert Key(p) in Keys([p, q]) && Key(p) in Keys([p]);
    KeyOwner(digest, c, p);
    KeyOwner(digest, d, q);
    assert Key(p) !in Keys([q]);
    assert ReconcileStep(digest, c, [], [p, q], [q], true);
    assert ClearStep(digest, d, [q], [], true);
    assert ClearStep(digest, d, [p, q], [p], true);
    assert ReconcileStep(digest, c, [], [p], [p], true);
  }

  lemma KeyOwner(digest: string -> string, cluster: string, p: Entry)
    requires p.Peer?
    ensures Ours(digest, cluster, Key(p)) <==> Ours(digest, cluster, p)
  {}

  lemma ForeignOfOne(digest: string -> string, cluster: string, p: Entry)
    requires p.Peer?
    ensures Foreign(digest, cluster, [p]) == if Ours(digest, cluster, p) then [] else [p]
  {
    assert [p][..0] == [];
  }

  lemma ForeignOfTwo(digest: string -> string, cluster: string, p: Entry, q: Entry)
    requires p.Peer? && q.Peer?
    ensures Foreign(digest, cluster, [p, q])
            == Foreign(digest, cluster, [p]) + if Ours(digest, cluster, q) then [] else [q]
  {
    assert [p, q][..1] == [p];
  }

  // --------------------------------------------------------- canonical lists

  /** Addresses the names of one cluster's peers tell apart. */
  ghost predicate Addressable(digest: string -> string, nodes: seq<RouterNode>, separator: char) {
    && (forall n :: n in nodes ==> IsAddress(n.ip, separator) && LowerAll(n.ip) == n.ip)
    && (forall m, n :: m in nodes && n in nodes && digest(m.ip) == digest(n.ip) ==> m.ip == n.ip)
  }

  ghost predicate DistinctAddresses(nodes: seq<RouterNode>) {
    forall i, j :: 0 <= i < j < |nodes| ==> nodes[i].ip != nodes[j].ip
  }

  lemma NodePeersDistinct(digest: string -> string, cluster: string, n: RouterNode, topology: Topology, asn: int,
                          separator: char)
    requires HexDigest(digest) && IsAddress(n.ip, separator) && LowerAll(n.ip) == n.ip
    ensures DistinctKeys(NodePeers(digest, cluster, n, topology, asn), Name)
  {
    var peers := NodePeers(digest, cluster, n, topology, asn);
    forall i, j | 0 <= i < j < |peers| ensures Name(peers[i]) != Name(peers[j]) {
      PeerNamesDistinct(digest, cluster, separator, n.ip, i, n.ip, j);
    }
  }

  lemma TwoNodesDistinct(digest: string -> string, cluster: string, m: RouterNode, n: RouterNode,
                         topology: Topology, asn: int, separator: char, p: Entry, q: Entry)
    requires HexDigest(digest) && Addressable(digest, [m, n], separator) && m.ip != n.ip
    requires exists i: nat :: i < Interfaces(topology) && p == PeerFor(digest, cluster, m, topology, asn, i)
    requires q in NodePeers(digest, cluster, n, topology, asn)
    ensures Name(p) != Name(q)
  {
    var i: nat :| i < Interfaces(topology) && p == PeerFor(digest, cluster, m, topology, asn, i);
    var peers := NodePeers(digest, cluster, n, topology, asn);
    var j: nat :| j < |peers| && peers[j] == q;
    assert m in [m, n] && n in [m, n];
    PeerNamesDistinct(digest, cluster, separator, m.ip, i, n.ip, j);
  }

  lemma DistinctConcat(a: seq<Entry>, b: seq<Entry>)
    requires DistinctKeys(a, Name) && DistinctKeys(b, Name)
    requires forall p, q :: p in a && q in b ==> Name(p) != Name(q)
    ensures DistinctKeys(a + b, Name)
  {
    forall i, j | 0 <= i < j < |a + b| ensures Name((a + b)[i]) != Name((a + b)[j]) {
      if i < |a| && j >= |a| { assert a[i] in a && b[j - |a|] in b; }
    }
  }

  lemma {:induction false} AllPeersDistinct(digest: string -> string, cluster: string, nodes: seq<RouterNode>,
                                            topology: Topology, asn: int, separator: char)
    requires HexDigest(digest) && Addressable(digest, nodes, separator) && DistinctAddresses(nodes)
    ensures DistinctKeys(AllPeers(digest, cluster, nodes, topology, asn), Name)
  {
    if nodes != [] {
      var most, last := nodes[..|nodes| - 1], nodes[|nodes| - 1];
      AllPeersDistinct(digest, cluster, most, topology, asn, separator);
      NodePeersDistinct(digest, cluster, last, topology, asn, separator);
      AllPeersAreOurs(digest, cluster, most, topology, asn);
      var early, late := AllPeers(digest, cluster, most, topology, asn),
          NodePeers(digest, cluster, last, topology, asn);
      forall p, q | p in early && q in late ensures Name(p) != Name(q) {
        var n, k: nat :| n in most && k < Interfaces(topology)
          && p == PeerFor(digest, cluster, n, topology, asn, k);
        TwoNodesDistinct(digest, cluster, n, last, topology, asn, separator, p, q);
      }
      DistinctConcat(early, late);
    }
  }

  lemma {:induction false} AllPeersConcat(digest: string -> string, cluster: string, a: seq<RouterNode>,
                                          b: seq<RouterNode>, topology: Topology, asn: int)
    ensures AllPeers(digest, cluster, a + b, topology, asn)
            == AllPeers(digest, cluster, a, topology, asn) + AllPeers(digest, cluster, b, topology, asn)
    decreases |b|
  {
    if b == [] {
      assert a + b == a;
    } else {
      AllPeersConcat(digest, cluster, a, b[..|b| - 1], topology, asn);
      assert (a + b)[..|a + b| - 1] == a + b[..|b| - 1];
    }
  }

  /** One node's peers can be taken out of the middle. */
  lemma AllPeersAround(digest: string -> string, cluster: string, a: seq<RouterNode>, n: RouterNode,
                       b: seq<RouterNode>, topology: Topology, asn: int)
    ensures multiset(AllPeers(digest, cluster, a + [n] + b, topology, asn))
            == multiset(AllPeers(digest, cluster, a + b, topology, asn))
               + multiset(NodePeers(digest, cluster, n, topology, asn))
  {
    AllPeersConcat(digest, cluster, a + [n], b, topology, asn);
    AllPeersConcat(digest, cluster, a, b, topology, asn);
    assert (a + [n])[..|a|] == a;
  }

  lemma {:induction false} AllPeersPermutation(digest: string -> string, cluster: string, a: seq<RouterNode>,
                                               b: seq<RouterNode>, topology: Topology, asn: int)
    requires multiset(a) == multiset(b)
    ensures multiset(AllPeers(digest, cluster, a, topology, asn))
            == multiset(AllPeers(digest, cluster, b, topology, asn))
    decreases |a|
  {
    hide AllPeers, NodePeers;
    if a != [] {
      var most, last := a[..|a| - 1], a[|a| - 1];
      var i := SameButOne(a, b);
      var left, right := b[..i], b[i + 1..];
      AllPeersPermutation(digest, cluster, most, left + right, topology, asn);
      AllPeersAround(digest, cluster, left, last, right, topology, asn);
      AllPeersAround(digest, cluster, most, last, [], topology, asn);
      assert b == left + [last] + right && a == most + [last] + [] && most + [] == most;
    } else {
      PermutationSameElements(a, b);
    }
  }

  /** The list written for a set of nodes does not depend on the order they are
      given in. */
  lemma DesiredCanonical(digest: string -> string, cluster: string, a: seq<RouterNode>, b: seq<RouterNode>,
                         topology: Topology, asn: int, separator: char, ps: seq<Entry>, qs: seq<Entry>)
    requires HexDigest(digest) && Addressable(digest, a, separator) && DistinctAddresses(a)
    requires multiset(a) == multiset(b)
    requires IsDesired(ps, digest, cluster, a, topology, asn) && IsDesired(qs, digest, cluster, b, topology, asn)
    ensures ps == qs
  {
    AllPeersPermutation(digest, cluster, a, b, topology, asn);
    AllPeersDistinct(digest, cluster, a, topology, asn, separator);
    DistinctPermutation(AllPeers(digest, cluster, a, topology, asn), ps, Name);
    SortedUnique(ps, qs, Name);
  }

  /** The peers that are not at an address, in order. */
  function Without(ps: seq<Entry>, ip: string): seq<Entry> {
    if ps == [] then []
    else
      var rest := Without(ps[..|ps| - 1], ip);
      var p := ps[|ps| - 1];
      if p.Peer? && p.peerIP == ip then rest else rest + [p]
  }

  lemma {:induction false} WithoutCount(ps: seq<Entry>, ip: string, p: Entry)
    ensures multiset(Without(ps, ip))[p] == if p.Peer? && p.peerIP == ip then 0 else multiset(ps)[p]
  {
    if ps != [] {
      WithoutCount(ps[..|ps| - 1], ip, p);
      assert ps == ps[..|ps| - 1] + [ps[|ps| - 1]];
    }
  }

  lemma {:induction false} WithoutSorted(ps: seq<Entry>, ip: string)
    requires SortedBy(ps, Name)
    ensures SortedBy(Without(ps, ip), Name)
  {
    if ps != [] {
      var most, last := ps[..|ps| - 1], ps[|ps| - 1];
      WithoutSorted(most, ip);
      var rest := Without(most, ip);
      forall i | 0 <= i < |rest| ensures !Less(Name(last), Name(rest[i])) {
        WithoutCount(most, ip, rest[i]);
        assert rest[i] in multiset(rest);
        assert rest[i] in most;
      }
    }
  }

  lemma KeptNodes(digest: string -> string, a: seq<RouterNode>, n: RouterNode, b: seq<RouterNode>, separator: char)
    requires Addressable(digest, a + [n] + b, separator) && DistinctAddresses(a + [n] + b)
    ensures Addressable(digest, a + b, separator) && DistinctAddresses(a + b)
    ensures forall m :: m in a + b ==> m.ip != n.ip
  {
    var nodes, kept := a + [n] + b, a + b;
    assert nodes[|a|] == n;
    forall i | 0 <= i < |kept|
      ensures kept[i] in nodes && kept[i] == nodes[if i < |a| then i else i + 1] && kept[i].ip != n.ip
    {
      assert kept[i] == nodes[if i < |a| then i else i + 1];
    }
  }

  lemma PeersLeft(digest: string -> string, cluster: string, kept: seq<RouterNode>, n: RouterNode,
                  topology: Topology, asn: int, full: seq<Entry>)
    requires forall m :: m in kept ==> m.ip != n.ip
    requires multiset(full) == multiset(AllPeers(digest, cluster, kept, topology, asn))
                               + multiset(NodePeers(digest, cluster, n, topology, asn))
    ensures multiset(Without(full, n.ip)) == multiset(AllPeers(digest, cluster, kept, topology, asn))
  {
    var ours, gone := AllPeers(digest, cluster, kept, topology, asn), NodePeers(digest, cluster, n, topology, asn);
    AllPeersAreOurs(digest, cluster, kept, topology, asn);
    forall p ensures multiset(Without(full, n.ip))[p] == multiset(ours)[p] {
      WithoutCount(full, n.ip, p);
      assert p in multiset(gone) ==> p in gone;
      assert p in multiset(ours) ==> p in ours;
    }
  }

  /** A node leaving takes its own peers off the list and leaves every other one
      as it was, name and all. */
  lemma RemovingANode(digest: string -> string, cluster: string, a: seq<RouterNode>, n: RouterNode,
                      b: seq<RouterNode>, topology: Topology, asn: int, separator: char,
                      full: seq<Entry>, part: seq<Entry>)
    requires HexDigest(digest)
    requires Addressable(digest, a + [n] + b, separator) && DistinctAddresses(a + [n] + b)
    requires IsDesired(full, digest, cluster, a + [n] + b, topology, asn)
    requires IsDesired(part, digest, cluster, a + b, topology, asn)
    ensures part == Without(full, n.ip)
  {
    KeptNodes(digest, a, n, b, separator);
    AllPeersAround(digest, cluster, a, n, b, topology, asn);
    PeersLeft(digest, cluster, a + b, n, topology, asn, full);
    WithoutSorted(full, n.ip);
    AllPeersDistinct(digest, cluster, a + b, topology, asn, separator);
    DistinctPermutation(AllPeers(digest, cluster, a + b, topology, asn), part, Name);
    SortedUnique(part, Without(full, n.ip), Name);
  }

  lemma {:induction false} AllPeersLength(digest: string -> string, cluster: string, nodes: seq<RouterNode>,
                                          topology: Topology, asn: int)
    ensures |AllPeers(digest, cluster, nodes, topology, asn)| == |nodes| * Interfaces(topology)
  {
    if nodes != [] {
      AllPeersLength(digest, cluster, nodes[..|nodes| - 1], topology, asn);
      assert |nodes| * Interfaces(topology) == (|nodes| - 1) * Interfaces(topology) + Interfaces(topology);
    }
  }

  /** One peer per node and usable interface; this is the number reported as
      managed. */
  lemma DesiredLength(ps: seq<Entry>, digest: string -> string, cluster: string, nodes: seq<RouterNode>,
                      topology: Topology, asn: int)
    requires IsDesired(ps, digest, cluster, nodes, topology, asn)
    ensures |ps| == |nodes| * Interfaces(topology)
  {
    AllPeersLength(digest, cluster, nodes, topology, asn);
    PermutationSameElements(ps, AllPeers(digest, cluster, nodes, topology, asn));
  }
}
