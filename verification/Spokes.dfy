/** NCC spokes: what a spoke holds, how the nodes are cut into chunks of the
    size a spoke takes, and which spokes belong to a prefix. */
module Spokes {
  import opened Options
  import opened Text
  import opened Sorting
  import opened GcpTypes

  const MAX_INSTANCES_PER_SPOKE := 8

  datatype Instance = Missing | Instance(vm: string, ip: string)
  datatype Linked = Linked(siteToSite: bool, instances: seq<Instance>)
  datatype Spoke = Spoke(hub: string, linked: Option<Linked>)
  type Store = map<string, Spoke>

  function NodeName(n: RouterNode): string {
    n.name
  }

  function SelfLink(n: RouterNode): string {
    n.selfLink
  }

  function HubPath(project: string, hubName: string): string {
    if "projects/" <= hubName then hubName else "projects/" + project + "/locations/global/hubs/" + hubName
  }

  /** A short hub name stands for the project's hub of that name, a full path for
      itself; either way the result is a full path. */
  lemma HubPathReads(project: string, hubName: string)
    ensures "projects/" <= hubName ==> HubPath(project, hubName) == hubName
    ensures !("projects/" <= hubName) ==>
              HubPath(project, hubName) == "projects/" + project + "/locations/global/hubs/" + hubName
    ensures HubPath(project, HubPath(project, hubName)) == HubPath(project, hubName)
  {}

  // ------------------------------------------------------------------- a spoke

  /** The address each instance is reached on, nameless instances left out. */
  function InstanceMap(insts: seq<Instance>): map<string, string> {
    if insts == [] then map[]
    else
      var m := InstanceMap(insts[..|insts| - 1]);
      var last := insts[|insts| - 1];
      if last.Missing? || last.vm == "" then m else m[last.vm := last.ip]
  }

  /** What is read of a list of instances is what is in it. */
  lemma {:induction false} InstanceMapReads(insts: seq<Instance>)
    ensures forall vm :: vm in InstanceMap(insts) ==> vm != "" && Instance(vm, InstanceMap(insts)[vm]) in insts
    ensures forall x :: x in insts && x != Missing && x.vm != "" ==> x.vm in InstanceMap(insts)
  {
    if insts != [] {
      InstanceMapReads(insts[..|insts| - 1]);
      assert insts == insts[..|insts| - 1] + [insts[|insts| - 1]];
    }
  }

  function NodeMap(nodes: seq<RouterNode>): map<string, string> {
    if nodes == [] then map[]
    else
      var last := nodes[|nodes| - 1];
      NodeMap(nodes[..|nodes| - 1])[last.selfLink := last.ip]
  }

  /** The two things that are compared of a spoke. A spoke that was never linked
      reads as one with nothing in it. */
  datatype View = View(siteToSite: bool, members: map<string, string>)

  function Seen(s: Spoke): View {
    if s.linked.None? then View(false, map[])
    else View(s.linked.value.siteToSite, InstanceMap(s.linked.value.instances))
  }

  predicate Matches(s: Spoke, nodes: seq<RouterNode>, siteToSite: bool) {
    Seen(s) == View(siteToSite, NodeMap(nodes))
  }

  function Instances(nodes: seq<RouterNode>): seq<Instance> {
    seq(|nodes|, i requires 0 <= i < |nodes| => Instance(nodes[i].selfLink, nodes[i].ip))
  }

  /** Writing a spoke for some nodes and reading it back gives their map, but
      for a node without a self link. */
  lemma {:induction false} InstancesRead(nodes: seq<RouterNode>)
    ensures InstanceMap(Instances(nodes)) == NodeMap(nodes) - {""}
  {
    if nodes != [] {
      var most := nodes[..|nodes| - 1];
      InstancesRead(most);
      assert Instances(nodes)[..|nodes| - 1] == Instances(most);
    }
  }

  lemma {:induction false} NodeMapOf(nodes: seq<RouterNode>)
    ensures NodeMap(nodes).Keys == set n | n in nodes :: n.selfLink
    ensures DistinctKeys(nodes, SelfLink) ==> forall n :: n in nodes ==> NodeMap(nodes)[n.selfLink] == n.ip
  {
    if nodes != [] {
      var most, last := nodes[..|nodes| - 1], nodes[|nodes| - 1];
      NodeMapOf(most);
      assert nodes == most + [last];
      if DistinctKeys(nodes, SelfLink) {
        assert forall i :: 0 <= i < |most| ==> SelfLink(nodes[i]) != SelfLink(nodes[|nodes| - 1]);
      }
    }
  }

  /** With distinct self links a spoke is matched by the order it is written in
      or any other. */
  lemma NodeMapPermutation(a: seq<RouterNode>, b: seq<RouterNode>)
    requires multiset(a) == multiset(b) && DistinctKeys(a, SelfLink)
    ensures NodeMap(a) == NodeMap(b)
  {
    PermutationSameElements(a, b);
    DistinctPermutation(a, b, SelfLink);
    NodeMapOf(a);
    NodeMapOf(b);
    forall k | k in NodeMap(a) ensures NodeMap(a)[k] == NodeMap(b)[k] {
      var n :| n in a && n.selfLink == k;
      assert n in b;
    }
  }

  /** What a write leaves is matched by the next pass exactly when every node has
      a self link. */
  lemma WrittenMatches(nodes: seq<RouterNode>, siteToSite: bool, s: Spoke)
    requires Seen(s) == View(siteToSite, NodeMap(nodes) - {""})
    ensures Matches(s, nodes, siteToSite) <==> forall n :: n in nodes ==> n.selfLink != ""
  {
    NodeMapOf(nodes);
    var m := NodeMap(nodes);
    if forall n :: n in nodes ==> n.selfLink != "" {
      assert "" !in m;
      assert m - {""} == m;
    } else {
      var n :| n in nodes && n.selfLink == "";
      assert "" in m && "" !in m - {""};
    }
  }

  // -------------------------------------------------------------------- chunks

  function Flatten<T>(chunks: seq<seq<T>>): seq<T> {
    if chunks == [] then [] else Flatten(chunks[..|chunks| - 1]) + chunks[|chunks| - 1]
  }

  /** Every chunk holds 1 to max, and all but the last are full. */
  ghost predicate Full<T>(chunks: seq<seq<T>>, max: nat) {
    && (forall i :: 0 <= i < |chunks| ==> 1 <= |chunks[i]| <= max)
    && (forall i :: 0 <= i < |chunks| - 1 ==> |chunks[i]| == max)
  }

  ghost predicate Chunking(chunks: seq<seq<RouterNode>>, nodes: seq<RouterNode>, max: nat) {
    && Full(chunks, max)
    && SortedBy(Flatten(chunks), NodeName) && multiset(Flatten(chunks)) == multiset(nodes)
  }

  lemma {:induction false} FlattenLength<T>(chunks: seq<seq<T>>, max: nat)
    requires chunks != [] && max > 0 && Full(chunks, max)
    ensures |Flatten(chunks)| == (|chunks| - 1) * max + |chunks[|chunks| - 1]|
  {
    var most, last := chunks[..|chunks| - 1], chunks[|chunks| - 1];
    if most == [] {
      assert Flatten(most) == [];
    } else {
      FlattenLength(most, max);
      assert most[|most| - 1] == chunks[|chunks| - 2];
      assert |Flatten(most)| == |most| * max by {
        assert |Flatten(most)| == (|most| - 1) * max + max;
      }
    }
  }

  /** The number of chunks is the number of nodes over the size, rounded up. */
  lemma ChunkCount<T>(chunks: seq<seq<T>>, max: nat)
    requires max > 0 && Full(chunks, max)
    ensures |chunks| * max >= |Flatten(chunks)|
    ensures chunks != [] ==> (|chunks| - 1) * max < |Flatten(chunks)|
  {
    if chunks != [] {
      FlattenLength(chunks, max);
      assert |chunks| * max == (|chunks| - 1) * max + max;
    }
  }

  lemma {:induction false} TimesGrows(x: nat, y: nat, m: nat)
    requires x <= y
    ensures x * m <= y * m
    decreases y
  {
    if x < y {
      TimesGrows(x, y - 1, m);
      assert y * m == (y - 1) * m + m;
    }
  }

  lemma Rounded(a: nat, b: nat, max: nat, n: nat)
    requires (a - 1) * max < n <= b * max
    ensures a <= b
  {
    if a > b { TimesGrows(b, a - 1, max); }
  }

  /** There is one way to cut a list. */
  lemma {:induction false} ChunksUnique<T>(a: seq<seq<T>>, b: seq<seq<T>>, max: nat)
    requires max > 0 && Full(a, max) && Full(b, max) && Flatten(a) == Flatten(b)
    ensures a == b
    decreases |a|
  {
    ChunkCount(a, max);
    ChunkCount(b, max);
    if a != [] { Rounded(|a|, |b|, max, |Flatten(a)|); }
    if b != [] { Rounded(|b|, |a|, max, |Flatten(a)|); }
    assert |a| == |b|;
    if a != [] {
      FlattenLength(a, max);
      FlattenLength(b, max);
      var p, q := a[..|a| - 1], b[..|b| - 1];
      var x, y := a[|a| - 1], b[|b| - 1];
      assert |x| == |y|;
      var all := Flatten(a);
      assert all == Flatten(p) + x && all == Flatten(q) + y;
      assert x == all[|all| - |x|..] == y;
      assert Flatten(p) == all[..|all| - |x|] == Flatten(q);
      ChunksUnique(p, q, max);
      assert a == p + [x] && b == q + [y];
    }
  }

  /** With distinct names the chunks do not depend on the order the nodes are
      given in. */
  lemma ChunksCanonical(a: seq<seq<RouterNode>>, b: seq<seq<RouterNode>>, m: seq<RouterNode>, n: seq<RouterNode>,
                        max: nat)
    requires max > 0 && DistinctKeys(m, NodeName) && multiset(m) == multiset(n)
    requires Chunking(a, m, max) && Chunking(b, n, max)
    ensures a == b
  {
    DistinctPermutation(m, Flatten(a), NodeName);
    SortedUnique(Flatten(a), Flatten(b), NodeName);
    ChunksUnique(a, b, max);
  }

  lemma {:induction false} InFlatten<T>(chunks: seq<seq<T>>, x: T)
    ensures x in Flatten(chunks) <==> exists i :: 0 <= i < |chunks| && x in chunks[i]
  {
    if chunks != [] {
      var most := chunks[..|chunks| - 1];
      InFlatten(most, x);
      if x in Flatten(most) {
        var i :| 0 <= i < |most| && x in most[i];
        assert x in chunks[i];
      }
      if i :| 0 <= i < |chunks| && x in chunks[i] {
        assert i < |most| ==> x in most[i];
      }
    }
  }

  /** Elements with distinct keys are each in one chunk. */
  lemma {:induction false} OneChunkEach<T>(chunks: seq<seq<T>>, key: T -> string, i: nat, j: nat, x: T)
    requires DistinctKeys(Flatten(chunks), key)
    requires i < j < |chunks| && x in chunks[i]
    ensures x !in chunks[j]
    decreases |chunks|
  {
    var most, last := chunks[..|chunks| - 1], chunks[|chunks| - 1];
    var front := Flatten(most);
    assert Flatten(chunks) == front + last;
    if j < |most| {
      forall p, q | 0 <= p < q < |front| ensures key(front[p]) != key(front[q]) {
        assert Flatten(chunks)[p] == front[p] && Flatten(chunks)[q] == front[q];
      }
      OneChunkEach(most, key, i, j, x);
    } else {
      InFlatten(most, x);
      assert x in most[i];
      var p :| 0 <= p < |front| && front[p] == x;
      forall q | 0 <= q < |last| ensures last[q] != x {
        assert key(Flatten(chunks)[p]) != key(Flatten(chunks)[|front| + q]);
      }
    }
  }

  lemma {:induction false} ChunkDistinct<T>(chunks: seq<seq<T>>, key: T -> string, i: nat)
    requires DistinctKeys(Flatten(chunks), key) && i < |chunks|
    ensures DistinctKeys(chunks[i], key)
    decreases |chunks|
  {
    var most, last := chunks[..|chunks| - 1], chunks[|chunks| - 1];
    var front := Flatten(most);
    assert Flatten(chunks) == front + last;
    if i < |most| {
      forall p, q | 0 <= p < q < |front| ensures key(front[p]) != key(front[q]) {
        assert Flatten(chunks)[p] == front[p] && Flatten(chunks)[q] == front[q];
      }
      ChunkDistinct(most, key, i);
    } else {
      forall p, q | 0 <= p < q < |last| ensures key(last[p]) != key(last[q]) {
        assert key(Flatten(chunks)[|front| + p]) != key(Flatten(chunks)[|front| + q]);
      }
    }
  }

  /** Each node is in exactly one of the chunks. */
  lemma EachNodeOnce(chunks: seq<seq<RouterNode>>, nodes: seq<RouterNode>, max: nat, n: RouterNode)
    requires Chunking(chunks, nodes, max) && DistinctKeys(nodes, NodeName) && n in nodes
    ensures exists i :: 0 <= i < |chunks| && n in chunks[i]
                        && forall j :: 0 <= j < |chunks| && j != i ==> n !in chunks[j]
  {
    PermutationSameElements(nodes, Flatten(chunks));
    DistinctPermutation(nodes, Flatten(chunks), NodeName);
    InFlatten(chunks, n);
    var i :| 0 <= i < |chunks| && n in chunks[i];
    forall j | 0 <= j < |chunks| && j != i ensures n !in chunks[j] {
      if i < j {
        OneChunkEach(chunks, NodeName, i, j, n);
      } else if n in chunks[j] {
        OneChunkEach(chunks, NodeName, j, i, n);
      }
    }
  }

  lemma OneMoreChunk<T>(chunks: seq<seq<T>>, chunk: seq<T>, max: nat)
    requires Full(chunks, max) && 1 <= |chunk| <= max
    requires forall k :: 0 <= k < |chunks| ==> |chunks[k]| == max
    ensures Full(chunks + [chunk], max) && Flatten(chunks + [chunk]) == Flatten(chunks) + chunk
  {
    assert (chunks + [chunk])[..|chunks|] == chunks;
  }

  method ChunkRouterNodes(nodes: seq<RouterNode>, maxPer: int) returns (chunks: seq<seq<RouterNode>>)
    ensures Chunking(chunks, nodes, if maxPer <= 0 then 1 else maxPer)
  {
    var max := if maxPer <= 0 then 1 else maxPer;
    var sorted := SortBy(nodes, NodeName);
    chunks := [];
    var i := 0;
    while i < |sorted|
      invariant Full(chunks, max) && 0 <= i
      invariant i < |sorted| ==> forall k :: 0 <= k < |chunks| ==> |chunks[k]| == max
      invariant Flatten(chunks) == sorted[..if i < |sorted| then i else |sorted|]
    {
      var end := i + max;
      if end > |sorted| { end := |sorted|; }
      var chunk := sorted[i..end];
      OneMoreChunk(chunks, chunk, max);
      assert sorted[..i] + chunk == sorted[..end];
      chunks := chunks + [chunk];
      i := i + max;
    }
    assert sorted[..|sorted|] == sorted;
  }

  // ------------------------------------------------------------ names and owners

  function SpokeId(prefix: string, i: nat): string {
    prefix + "-" + Itoa(i)
  }

  /** A name the listing for a prefix returns: the prefix, a dash and anything
      strconv.Atoi reads. */
  predicate Numbered(id: string, prefix: string) {
    prefix + "-" <= id && IsAtoi(id[|prefix| + 1..])
  }

  predicate Listed(s: Store, hub: string, prefix: string, id: string) {
    id in s && s[id].hub == hub && Numbered(id, prefix)
  }

  lemma SpokeIdsDistinct(prefix: string, i: nat, j: nat)
    ensures SpokeId(prefix, i) == SpokeId(prefix, j) <==> i == j
  {
    if SpokeId(prefix, i) == SpokeId(prefix, j) {
      assert Itoa(i) == SpokeId(prefix, i)[|prefix| + 1..] == Itoa(j);
      ItoaInjective(i, j);
    }
  }

  lemma NumberedOwn(prefix: string, i: nat)
    requires i <= MAX_INT
    ensures Numbered(SpokeId(prefix, i), prefix)
  {
    ItoaIsAtoi(i);
    assert SpokeId(prefix, i)[|prefix| + 1..] == Itoa(i);
  }

  lemma NumberedBySign(other: string, i: nat)
    requires i <= MAX_INT
    ensures Numbered(SpokeId(other + "-", i), other)
  {
    var id, digits := SpokeId(other + "-", i), Itoa(i);
    ItoaIsAtoi(i);
    DecimalItoa(i);
    assert id == (other + "-") + ("-" + digits);
    assert id[|other| + 1..] == "-" + digits;
    assert Unsigned("-" + digits) == digits;
  }

  /** Whose listing has a spoke: its own prefix's, and that of the prefix one
      dash shorter, since Atoi reads a sign. */
  lemma NumberedExactly(prefix: string, i: nat, other: string)
    requires i <= MAX_INT
    ensures Numbered(SpokeId(prefix, i), other) <==> other == prefix || prefix == other + "-"
  {
    ItoaIsAtoi(i);
    NumberedOwn(prefix, i);
    NumberedBySign(other, i);
    if Numbered(SpokeId(prefix, i), other) { OnlyTwoOwners(prefix, Itoa(i), other); }
  }

  lemma OnlyTwoOwners(prefix: string, digits: string, other: string)
    requires |digits| > 0 && forall k :: 0 <= k < |digits| ==> IsDigit(digits[k])
    requires Numbered(prefix + "-" + digits, other)
    ensures other == prefix || prefix == other + "-"
  {
    var id := prefix + "-" + digits;
    var rest := id[|other| + 1..];
    assert id[|other|] == '-' by { assert (other + "-")[|other|] == '-'; }
    assert id[|prefix|] == '-' && forall k :: |prefix| < k < |id| ==> id[k] == digits[k - |prefix| - 1];
    assert |other| <= |prefix|;
    if |other| < |prefix| {
      var at := |prefix| - |other| - 1;
      assert rest[at] == '-';
      DigitsFollow(rest);
      assert at == 0;
      assert prefix == id[..|prefix|] && other + "-" == id[..|other| + 1];
    } else {
      assert prefix == id[..|prefix|] && other == id[..|other|];
    }
  }
}
