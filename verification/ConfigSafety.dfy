/** What the BGPCloudConfiguration status can be relied on for. */
module ConfigSafety {
  import opened Options
  import opened Outcomes
  import opened Sorting
  import opened Conditions
  import opened PlatformTypes
  import opened ConfigController
  import opened NodeMessages

  predicate Holds(s: Status, kind: Kind) {
    var c := Lookup(s.conditions, kind);
    c.Some? && c.value.status
  }

  predicate Absent(s: Status, kind: Kind) {
    Lookup(s.conditions, kind).None?
  }

  // ------------------------------------------------------------ one pass, one verdict

  /** No two writes about one condition. */
  predicate DistinctKinds(ws: seq<Write>) {
    forall i, j :: 0 <= i < j < |ws| ==> ws[i].kind != ws[j].kind
  }

  /** The writes of a pass that gets past discovery, one by one. */
  lemma AppliedInFull(platform: Platform, declared: nat, ans: Answers)
    requires platform == Manual || ans.discovery.Discovered?
    ensures PlannedWrites(platform, ans) ==
            if platform == Manual then
              [Patched, FrrUp, Drop(CloudEndpointsDiscovered), Drop(CloudResourcesReconciled),
               Drop(CompleteNodeInventory)]
            else [Patched, FrrUp, DiscoveredWrite(ans.discovery.groups)]
    ensures AppliedWrites(platform, declared, ans) ==
            if platform == Manual then
              [Patched, FrrUp, Drop(CloudEndpointsDiscovered), Drop(CloudResourcesReconciled),
               Drop(CompleteNodeInventory),
               AppliedWrite(declared)]
            else [Patched, FrrUp, DiscoveredWrite(ans.discovery.groups), AppliedWrite(|ans.discovery.groups|)]
  {}

  lemma LongestDistinct(ws: seq<Write>, manual: bool)
    requires 2 <= |ws| <= 6 && ws[0].kind == NetworkOperatorPatched && ws[1].kind == FRRNamespaceReady
    requires |ws| > 2 ==> ws[2].kind == CloudEndpointsDiscovered
    requires manual && |ws| > 3 ==> ws[3].kind == CloudResourcesReconciled
    requires manual && |ws| > 4 ==> ws[4].kind == CompleteNodeInventory
    requires manual && |ws| > 5 ==> ws[5].kind == FRRConfigurationApplied
    requires !manual && |ws| > 3 ==> ws[3].kind == FRRConfigurationApplied
    requires !manual && |ws| > 4 ==>
               ws[4].kind == CompleteNodeInventory || (|ws| == 5 && ws[4].kind == CloudResourcesReconciled)
    requires !manual && |ws| > 5 ==> ws[5].kind == CloudResourcesReconciled
    ensures DistinctKinds(ws)
  {}

  lemma UnreachableDistinct(w: Write)
    requires w.kind == CloudEndpointsDiscovered
    ensures DistinctKinds(UnreachableWrites(w))
  {}

  /** The exits behind discovery, where FRR is given its plan. */
  predicate Applies(exit: Exit) {
    exit.ApplyFailed? || exit.NodesFailed? || exit.CloudFailed? || exit == Finished
  }

  /** Of these, the ones a Manual platform can end with. */
  predicate PastDiscovery(exit: Exit, platform: Platform, ans: Answers) {
    && Applies(exit)
    && (platform == Manual ==> exit.ApplyFailed? || exit == Finished)
    && (platform != Manual ==> ans.discovery.Discovered?)
  }

  lemma AppliedDistinct(exit: Exit, platform: Platform, declared: nat, ans: Answers)
    requires PastDiscovery(exit, platform, ans)
    ensures DistinctKinds(WritesOf(exit, platform, declared, ans))
  {
    AppliedInFull(platform, declared, ans);
    hide AppliedWrites, PlannedWrites, LeftOut, DistinctKinds, IncompleteMessage;
    LongestDistinct(WritesOf(exit, platform, declared, ans), platform == Manual);
  }

  /** However a pass ends, it gives no condition two different contents. */
  lemma NoConditionTwice(c: Config, ans: Answers)
    ensures DistinctKinds(WritesOf(ExitOf(c.name, c.platform, ans), c.platform, c.declaredGroups, ans))
    ensures Consistent(WritesOf(ExitOf(c.name, c.platform, ans), c.platform, c.declaredGroups, ans))
  {
    var exit := ExitOf(c.name, c.platform, ans);
    var ws := WritesOf(exit, c.platform, c.declaredGroups, ans);
    if exit.WaitingForCredentials? || exit.BadCredentials? || exit.PlatformFailed? || exit.NoRouteServer?
       || exit.DiscoveryFailed? {
      UnreachableDistinct(ws[4]);
    } else if Applies(exit) {
      assert PastDiscovery(exit, c.platform, ans);
      hide ExitOf, WritesOf;
      AppliedDistinct(exit, c.platform, c.declaredGroups, ans);
    }
  }

  /** Answers that differ, if at all, in the time they are given, in how writes
      come back, and in the order the nodes are listed in. */
  ghost predicate SameAnswers(a: Answers, b: Answers) {
    && a.(setAt := 0, doneAt := 0, statusWrite := Done, nodes := b.nodes)
       == b.(setAt := 0, doneAt := 0, statusWrite := Done)
    && match a.nodes
       case Listed(nodes) => b.nodes.Listed? && multiset(nodes) == multiset(b.nodes.nodes)
       case ListError(_) => b.nodes == a.nodes
  }

  /** Whether the pass reports the nodes it leaves out. */
  predicate ReportsNodes(exit: Exit, platform: Platform) {
    platform != Manual && (exit.CloudFailed? || exit == Finished)
  }

  lemma SameAnswersSamePlan(c: Config, a: Answers, b: Answers)
    requires SameAnswers(a, b)
    ensures ExitOf(c.name, c.platform, a) == ExitOf(c.name, c.platform, b)
    ensures multiset(LeftOut(c.platform, a)) == multiset(LeftOut(c.platform, b))
    ensures LeftOut(c.platform, a) == [] <==> LeftOut(c.platform, b) == []
    ensures var exit := ExitOf(c.name, c.platform, a);
            forall was :: GroupsAfter(exit, c.platform, a, was) == GroupsAfter(exit, c.platform, b, was)
  {
    SameFields(a, b);
    if a.nodes.Listed? { IncompletePermutation(a.nodes.nodes, b.nodes.nodes); }
    PermutationSameElements(LeftOut(c.platform, a), LeftOut(c.platform, b));
  }

  lemma SameFields(a: Answers, b: Answers)
    requires SameAnswers(a, b)
    ensures a.patchError == b.patchError && a.frr == b.frr && a.build == b.build && a.discovery == b.discovery
    ensures a.applyError == b.applyError && a.reconcileError == b.reconcileError
  {
    var x := a.(setAt := 0, doneAt := 0, statusWrite := Done, nodes := b.nodes);
    var y := b.(setAt := 0, doneAt := 0, statusWrite := Done);
    assert x.patchError == y.patchError && x.frr == y.frr && x.build == y.build && x.discovery == y.discovery;
    assert x.applyError == y.applyError && x.reconcileError == y.reconcileError;
  }

  /** What a pass that reports the nodes writes last. */
  function LastWrite(exit: Exit, complete: bool): Write {
    if exit.CloudFailed? then
      Bad(CloudResourcesReconciled, ReasonCloudReconcileFailed, SaysReconcileFailed(exit.text))
    else if complete then Put(CloudResourcesReconciled, true, ReasonReconciled, SaysReconciled)
    else Put(CloudResourcesReconciled, false, ReasonNodesIncomplete, SaysReconciledPartly)
  }

  lemma ReportedWrites(c: Config, ans: Answers)
    requires ReportsNodes(ExitOf(c.name, c.platform, ans), c.platform)
    ensures var exit, out := ExitOf(c.name, c.platform, ans), LeftOut(c.platform, ans);
            && ans.discovery.Discovered?
            && WritesOf(exit, c.platform, c.declaredGroups, ans) ==
               [Patched, FrrUp, DiscoveredWrite(ans.discovery.groups), AppliedWrite(|ans.discovery.groups|),
                InventoryWrite(out), LastWrite(exit, out == [])]
  {
    AppliedInFull(c.platform, c.declaredGroups, ans);
  }

  /** Up to there the answers decide alone. */
  lemma SameWritesUntilNodes(c: Config, a: Answers, b: Answers)
    requires SameAnswers(a, b) && !ReportsNodes(ExitOf(c.name, c.platform, a), c.platform)
    ensures var exit := ExitOf(c.name, c.platform, a);
            WritesOf(exit, c.platform, c.declaredGroups, a) == WritesOf(exit, c.platform, c.declaredGroups, b)
  {
    SameFields(a, b);
    assert PlannedWrites(c.platform, a) == PlannedWrites(c.platform, b);
    assert AppliedWrites(c.platform, c.declaredGroups, a) == AppliedWrites(c.platform, c.declaredGroups, b);
    hide PlannedWrites, AppliedWrites, UnreachableWrites, LeftOut, InventoryWrite, ReconciledWrite;
  }

  /** The writes of two such passes differ in one message, if at all. */
  lemma SameAnswersSameWrites(c: Config, a: Answers, b: Answers)
    requires SameAnswers(a, b)
    ensures var exit := ExitOf(c.name, c.platform, a);
            var ws := WritesOf(exit, c.platform, c.declaredGroups, a);
            var vs := WritesOf(exit, c.platform, c.declaredGroups, b);
            && (!ReportsNodes(exit, c.platform) ==> vs == ws)
            && (ReportsNodes(exit, c.platform) ==>
                  && 4 < |ws| == |vs|
                  && ws[4] == InventoryWrite(LeftOut(c.platform, a))
                  && vs == ws[4 := InventoryWrite(LeftOut(c.platform, b))])
  {
    SameFields(a, b);
    SameAnswersSamePlan(c, a, b);
    if ReportsNodes(ExitOf(c.name, c.platform, a), c.platform) {
      ReportedWrites(c, a);
      ReportedWrites(c, b);
    } else {
      SameWritesUntilNodes(c, a, b);
    }
    hide WritesOf, ExitOf, LeftOut, InventoryWrite, LastWrite;
  }

  /** With the same writes the second pass can only differ in how old it finds the
      inventory. */
  lemma SameWritesSecondStatus(c: Config, a: Answers, b: Answers)
    requires SameAnswers(a, b)
    requires var exit := ExitOf(c.name, c.platform, a);
             WritesOf(exit, c.platform, c.declaredGroups, a) == WritesOf(exit, c.platform, c.declaredGroups, b)
    ensures var once := c.(status := StatusAfter(c, a));
            StatusAfter(once, b) != once.status <==>
            ExitOf(c.name, c.platform, a) == Finished && LeftOut(c.platform, a) != []
            && Expired(once.status.conditions, a.doneAt) != Expired(once.status.conditions, b.doneAt)
  {
    var exit := ExitOf(c.name, c.platform, a);
    SameAnswersSamePlan(c, a, b);
    NoConditionTwice(c, a);
    var ws := WritesOf(exit, c.platform, c.declaredGroups, a);
    PerformAllTwice(c.status.conditions, ws, c.generation, a.setAt, b.setAt);
    GroupsKept(exit, c.platform, b, GroupsAfter(exit, c.platform, b, c.status.groups), c.status.groups);
    hide WritesOf, LeftOut, Expired, GroupsAfter, ExitOf, PerformAll, Consistent;
  }

  lemma GroupsKept(exit: Exit, platform: Platform, ans: Answers, was: seq<GroupStatus>, groups: seq<GroupStatus>)
    requires was == GroupsAfter(exit, platform, ans, groups)
    ensures GroupsAfter(exit, platform, ans, was) == was
  {}

  /** Steady state. From any stored status, a second pass given the same answers,
      the nodes listed in any order, writes a status in two cases only: the
      message about the nodes left out has changed, or the grace of an
      incomplete inventory has run out between the two. */
  lemma SecondPassWrites(c: Config, a: Answers, b: Answers)
    requires SameAnswers(a, b)
    ensures var once := c.(status := StatusAfter(c, a));
            var exit := ExitOf(c.name, c.platform, a);
            StatusAfter(once, b) != once.status <==>
            || (ReportsNodes(exit, c.platform) && LeftOut(c.platform, a) != []
                && IncompleteMessage(LeftOut(c.platform, a)) != IncompleteMessage(LeftOut(c.platform, b)))
            || (exit == Finished && LeftOut(c.platform, a) != []
                && Expired(once.status.conditions, a.doneAt) != Expired(once.status.conditions, b.doneAt))
  {
    var exit := ExitOf(c.name, c.platform, a);
    SameAnswersSamePlan(c, a, b);
    SameAnswersSameWrites(c, a, b);
    var changed := ReportsNodes(exit, c.platform) && LeftOut(c.platform, a) != []
      && IncompleteMessage(LeftOut(c.platform, a)) != IncompleteMessage(LeftOut(c.platform, b));
    if changed {
      MessageChanges(c, a, b);
    } else {
      SameInventoryWrite(LeftOut(c.platform, a), LeftOut(c.platform, b));
      hide StatusAfter, WritesOf, ExitOf, LeftOut, Expired, InventoryWrite, IncompleteMessage, SameAnswers;
      SameWritesSecondStatus(c, a, b);
    }
  }

  lemma SameInventoryWrite(a: seq<RouterNode>, b: seq<RouterNode>)
    requires a == [] <==> b == []
    ensures a == [] || IncompleteMessage(a) == IncompleteMessage(b) ==> InventoryWrite(a) == InventoryWrite(b)
  {}

  /** A changed message is a changed condition. */
  lemma MessageChanges(c: Config, a: Answers, b: Answers)
    requires SameAnswers(a, b) && ReportsNodes(ExitOf(c.name, c.platform, a), c.platform)
    requires IncompleteMessage(LeftOut(c.platform, a)) != IncompleteMessage(LeftOut(c.platform, b))
    requires LeftOut(c.platform, a) != []
    ensures var once := c.(status := StatusAfter(c, a)); StatusAfter(once, b).conditions != once.status.conditions
  {
    var exit := ExitOf(c.name, c.platform, a);
    var ws, vs := WritesOf(exit, c.platform, c.declaredGroups, a), WritesOf(exit, c.platform, c.declaredGroups, b);
    var once := PerformAll(c.status.conditions, ws, c.generation, a.setAt);
    SameAnswersSamePlan(c, a, b);
    SameAnswersSameWrites(c, a, b);
    NoConditionTwice(c, a);
    NoConditionTwice(c, b);
    LookupAfterAll(c.status.conditions, ws, c.generation, a.setAt, CompleteNodeInventory);
    LookupAfterAll(once, vs, c.generation, b.setAt, CompleteNodeInventory);
    assert ws[4] in ws && vs[4] in vs;
  }

  /** So with names as Kubernetes has them, and a message short enough not to be
      cut, any other order of two or more nodes left out is another status. */
  lemma ListingOrderShows(c: Config, a: Answers, b: Answers)
    requires SameAnswers(a, b) && Named(LeftOut(c.platform, a)) && Uncut(LeftOut(c.platform, a))
    requires a.doneAt == b.doneAt && ReportsNodes(ExitOf(c.name, c.platform, a), c.platform)
    ensures var once := c.(status := StatusAfter(c, a));
            StatusAfter(once, b) == once.status <==> LeftOut(c.platform, a) == LeftOut(c.platform, b)
  {
    SameAnswersSamePlan(c, a, b);
    SecondPassWrites(c, a, b);
    MessageShowsOrder(LeftOut(c.platform, a), LeftOut(c.platform, b));
  }

  /** A blocked deletion is reported the same whatever order the routings are
      listed in, so looking again writes nothing. */
  lemma BlockedIsQuiet(c: Config, a: Answers, b: Answers, s: seq<string>, t: seq<string>)
    requires a.routings.Some? && b.routings.Some? && multiset(a.routings.value) == multiset(b.routings.value)
    requires multiset(s) == multiset(a.routings.value) && multiset(t) == multiset(b.routings.value)
    requires SortedBy(s, Identity) && SortedBy(t, Identity)
    ensures var once := c.(status := BlockedStatus(c, s, a)); BlockedStatus(once, t, b) == once.status
  {
    SortedStringsUnique(s, t);
    PerformSettles(c.status.conditions, BlockedWrite(s), c.generation, a.setAt, DeletionBlocked);
    SettledIsNoOp(BlockedStatus(c, s, a).conditions, BlockedWrite(s), c.generation, b.setAt);
  }

  // ------------------------------------------------------------------- what Ready means

  /** The peering plan a pass rendered into FRR. */
  datatype Rendered = FromSpec | FromCloud(groups: seq<PeerGroup>)

  predicate Shows(s: Status, plan: Rendered) {
    && Holds(s, NetworkOperatorPatched) && Holds(s, FRRNamespaceReady) && Holds(s, FRRConfigurationApplied)
    && match plan
       case FromSpec =>
         && Absent(s, CloudEndpointsDiscovered) && Absent(s, CloudResourcesReconciled)
         && Absent(s, CompleteNodeInventory)
         && s.groups == []
       case FromCloud(groups) =>
         && Holds(s, CloudEndpointsDiscovered) && Holds(s, CloudResourcesReconciled) && Holds(s, CompleteNodeInventory)
         && s.groups == GroupsToStatus(groups)
  }

  function PlanOf(platform: Platform, ans: Answers): Rendered {
    if platform != Manual && ans.discovery.Discovered? then FromCloud(ans.discovery.groups) else FromSpec
  }

  lemma ReadyWhen(c: Config, ans: Answers)
    ensures StatusAfter(c, ans).phase == Ready <==>
            ExitOf(c.name, c.platform, ans) == Finished && LeftOut(c.platform, ans) == []
  {
    hide PerformAll, WritesOf, GroupsAfter, LeftOut, Expired;
  }

  predicate Good(ws: seq<Write>, kind: Kind) {
    exists w :: w in ws && w.kind == kind && w.Put? && w.status
  }

  lemma ShowsAfter(s: Status, cs: seq<Condition>, ws: seq<Write>, generation: nat, now: nat, plan: Rendered)
    requires Consistent(ws) && s.conditions == PerformAll(cs, ws, generation, now)
    requires Good(ws, NetworkOperatorPatched) && Good(ws, FRRNamespaceReady) && Good(ws, FRRConfigurationApplied)
    requires match plan
             case FromSpec => s.groups == [] && forall w :: w in ForgetCloud ==> w in ws
             case FromCloud(groups) =>
               && s.groups == GroupsToStatus(groups) && Good(ws, CloudEndpointsDiscovered)
               && Good(ws, CloudResourcesReconciled) && Good(ws, CompleteNodeInventory)
    ensures Shows(s, plan)
  {
    LookupAfterAll(cs, ws, generation, now, NetworkOperatorPatched);
    LookupAfterAll(cs, ws, generation, now, FRRNamespaceReady);
    LookupAfterAll(cs, ws, generation, now, FRRConfigurationApplied);
    LookupAfterAll(cs, ws, generation, now, CloudEndpointsDiscovered);
    LookupAfterAll(cs, ws, generation, now, CloudResourcesReconciled);
    LookupAfterAll(cs, ws, generation, now, CompleteNodeInventory);
    assert ForgetCloud[0] in ForgetCloud && ForgetCloud[1] in ForgetCloud && ForgetCloud[2] in ForgetCloud;
  }

  lemma FinishedWrites(platform: Platform, declared: nat, ans: Answers)
    requires platform == Manual || ans.discovery.Discovered?
    requires LeftOut(platform, ans) == []
    ensures var ws := WritesOf(Finished, platform, declared, ans);
            && Good(ws, NetworkOperatorPatched) && Good(ws, FRRNamespaceReady) && Good(ws, FRRConfigurationApplied)
            && if platform == Manual then forall w :: w in ForgetCloud ==> w in ws
               else
                 && Good(ws, CloudEndpointsDiscovered) && Good(ws, CloudResourcesReconciled)
                 && Good(ws, CompleteNodeInventory)
  {
    var ws := WritesOf(Finished, platform, declared, ans);
    AppliedInFull(platform, declared, ans);
    assert ws[0] == Patched && ws[1] == FrrUp;
    if platform == Manual {
      assert ws[2] == ForgetCloud[0] && ws[3] == ForgetCloud[1] && ws[4] == ForgetCloud[2] && ws[5].Put?;
    } else {
      assert ws[2] == DiscoveredWrite(ans.discovery.groups) && ws[3] == AppliedWrite(|ans.discovery.groups|);
      assert ws[4] == InventoryWrite([]) && ws[5] == ReconciledWrite([]);
    }
  }

  lemma FinishedStatus(c: Config, ans: Answers)
    requires ExitOf(c.name, c.platform, ans) == Finished
    ensures var s, ws := StatusAfter(c, ans), WritesOf(Finished, c.platform, c.declaredGroups, ans);
            && s.conditions == PerformAll(c.status.conditions, ws, c.generation, ans.setAt)
            && (c.platform == Manual ==> s.groups == [])
            && (c.platform != Manual ==> ans.discovery.Discovered? && s.groups == GroupsToStatus(ans.discovery.groups))
  {
    hide PerformAll, WritesOf, LeftOut, GroupsToStatus, Expired;
  }

  lemma FinishedShows(c: Config, ans: Answers)
    requires ExitOf(c.name, c.platform, ans) == Finished && LeftOut(c.platform, ans) == []
    ensures Shows(StatusAfter(c, ans), PlanOf(c.platform, ans))
  {
    hide ExitOf, LeftOut, WritesOf, PerformAll, StatusAfter, GroupsToStatus, Good, Consistent, DistinctKinds, Shows;
    FinishedStatus(c, ans);
    FinishedWrites(c.platform, c.declaredGroups, ans);
    NoConditionTwice(c, ans);
    var ws := WritesOf(Finished, c.platform, c.declaredGroups, ans);
    ShowsAfter(StatusAfter(c, ans), c.status.conditions, ws, c.generation, ans.setAt, PlanOf(c.platform, ans));
  }

  /** A pass ends Ready exactly when it meets no obstacle and leaves no node out,
      and what its status then shows is the plan it rendered. */
  lemma ReadyExactly(c: Config, ans: Answers)
    ensures StatusAfter(c, ans).phase == Ready <==>
            ExitOf(c.name, c.platform, ans) == Finished && LeftOut(c.platform, ans) == []
    ensures StatusAfter(c, ans).phase == Ready ==> Shows(StatusAfter(c, ans), PlanOf(c.platform, ans))
  {
    ReadyWhen(c, ans);
    if ExitOf(c.name, c.platform, ans) == Finished && LeftOut(c.platform, ans) == [] { FinishedShows(c, ans); }
    hide *;
  }

  /** The configuration with its history: the plan last rendered into FRR, if it
      is known, the plan behind the last Ready status stored, and whether the
      last status a pass arrived at was not stored. */
  datatype Tracked = Tracked(config: Config, rendered: Option<Rendered>, shown: Rendered, lost: bool)

  predicate ReadyIsTrue(t: Tracked) {
    t.config.status.phase == Ready ==>
      && Shows(t.config.status, t.shown)
      && (!t.lost && !t.config.deleting ==> t.rendered == Some(t.shown))
  }

  function RenderedAfter(exit: Exit, platform: Platform, ans: Answers, was: Option<Rendered>): Option<Rendered> {
    if exit.ApplyFailed? then None
    else if exit.NodesFailed? || exit.CloudFailed? || exit == Finished then Some(PlanOf(platform, ans))
    else was
  }

  /** One pass, watched. */
  function TrackedPass(t: Tracked, sorted: seq<string>, ans: Answers): Option<Tracked> {
    var c, next := t.config, Pass(t.config, sorted, ans);
    if next.None? then None
    else if !ans.readOk then Some(t)
    else if c.name == SINGLETON_NAME && !c.deleting && !c.finalizer && !ans.finalizerWrite.Done? then
      Some(t.(config := next.value))
    else if c.name == SINGLETON_NAME && c.deleting then
      Some(t.(config := next.value, rendered := if ans.routings == Some([]) then None else t.rendered))
    else
      var exit := ExitOf(c.name, c.platform, ans);
      var stored := next.value.status == StatusAfter(c, ans);
      Some(Tracked(next.value, RenderedAfter(exit, c.platform, ans, t.rendered),
                   if stored && StatusAfter(c, ans).phase == Ready then PlanOf(c.platform, ans) else t.shown,
                   !stored))
  }

  /** The user may change anything but the name and the status, and cannot take
      a deletion back. */
  predicate Edited(before: Config, after: Config) {
    after.name == before.name && after.status == before.status && (before.deleting ==> after.deleting)
  }

  datatype Event = Reconciled(sorted: seq<string>, ans: Answers) | UserEdits(config: Config)

  ghost predicate Step(t: Tracked, e: Event, next: Tracked) {
    match e
    case Reconciled(sorted, ans) => TrackedPass(t, sorted, ans) == Some(next)
    case UserEdits(config) => Edited(t.config, config) && next == t.(config := config)
  }

  ghost predicate IsRun(events: seq<Event>, states: seq<Tracked>) {
    && |states| == |events| + 1
    && states[0].config.status == Status(NoPhase, 0, [], [])
    && forall i :: 0 <= i < |events| ==> Step(states[i], events[i], states[i + 1])
  }

  lemma PassKeepsReadyTrue(t: Tracked, sorted: seq<string>, ans: Answers)
    requires ReadyIsTrue(t) && TrackedPass(t, sorted, ans).Some?
    ensures ReadyIsTrue(TrackedPass(t, sorted, ans).value)
  {
    var c := t.config;
    ReadyExactly(c, ans);
    assert StatusAfter(c.(finalizer := true), ans) == StatusAfter(c, ans);
    if c.deleting && ans.routings.Some? && ans.routings.value != [] {
      BlockedKeeps(c, sorted, ans, t.shown);
    }
  }

  /** Reporting a blocked deletion leaves what the status shows alone. */
  lemma BlockedKeeps(c: Config, sorted: seq<string>, ans: Answers, plan: Rendered)
    ensures BlockedStatus(c, sorted, ans).phase == c.status.phase
    ensures Shows(BlockedStatus(c, sorted, ans), plan) <==> Shows(c.status, plan)
  {
    var w := BlockedWrite(sorted);
    PerformSettles(c.status.conditions, w, c.generation, ans.setAt, NetworkOperatorPatched);
    PerformSettles(c.status.conditions, w, c.generation, ans.setAt, FRRNamespaceReady);
    PerformSettles(c.status.conditions, w, c.generation, ans.setAt, FRRConfigurationApplied);
    PerformSettles(c.status.conditions, w, c.generation, ans.setAt, CloudEndpointsDiscovered);
    PerformSettles(c.status.conditions, w, c.generation, ans.setAt, CloudResourcesReconciled);
    PerformSettles(c.status.conditions, w, c.generation, ans.setAt, CompleteNodeInventory);
  }

  /** Over every run: a stored Ready carries the conditions and the peer groups
      of a full pass and, unless a status could not be stored since or the
      configuration is being deleted, of the very plan FRR was last given. */
  lemma {:induction false} ReadyIsAlwaysTrue(events: seq<Event>, states: seq<Tracked>)
    requires IsRun(events, states)
    ensures ReadyIsTrue(states[|events|])
    decreases |events|
  {
    if events != [] {
      var n := |events| - 1;
      ReadyIsAlwaysTrue(events[..n], states[..n + 1]);
      match events[n] {
        case Reconciled(sorted, ans) =>
          assert Step(states[n], events[n], states[n + 1]);
          PassKeepsReadyTrue(states[n], sorted, ans);
        case UserEdits(config) =>
      }
    }
  }

  // ------------------------------------------------------------------ the inventory timer

  /** Since when the stored status has had an incomplete inventory. */
  function WindowStart(s: Status): Option<nat> {
    var c := Lookup(s.conditions, CompleteNodeInventory);
    if c.Some? && !c.value.status then Some(c.value.since) else None
  }

  /** The passes that end a window: those that find every node complete, and
      those that drop the condition, because the platform could not be built or
      discovered, its credentials are awaited, or there is none. */
  predicate EndsWindow(c: Config, ans: Answers) {
    var exit := ExitOf(c.name, c.platform, ans);
    match exit
    case InvalidName(_) => false
    case PatchFailed(_) => false
    case FrrCheckFailed(_) => false
    case WaitingForFrr => false
    case WaitingForCredentials(_) => true
    case BadCredentials(_) => true
    case PlatformFailed(_) => true
    case NoRouteServer(_) => true
    case DiscoveryFailed(_) => true
    case ApplyFailed(_) => c.platform == Manual
    case NodesFailed(_) => false
    case CloudFailed(_) => LeftOut(c.platform, ans) == []
    case Finished => LeftOut(c.platform, ans) == []
  }

  /** The passes that look at the nodes and find one incomplete. */
  predicate SeesIncomplete(c: Config, ans: Answers) {
    var exit := ExitOf(c.name, c.platform, ans);
    (exit.CloudFailed? || exit == Finished) && LeftOut(c.platform, ans) != []
  }

  /** The writes of a pass to the inventory condition. */
  ghost predicate WritesInventory(c: Config, ans: Answers) {
    var ws := WritesOf(ExitOf(c.name, c.platform, ans), c.platform, c.declaredGroups, ans);
    && (SeesIncomplete(c, ans) ==> InventoryWrite(LeftOut(c.platform, ans)) in ws)
    && (EndsWindow(c, ans) ==> Drop(CompleteNodeInventory) in ws || InventoryWrite([]) in ws)
    && (!SeesIncomplete(c, ans) && !EndsWindow(c, ans) ==>
          forall w :: w in ws ==> w.kind != CompleteNodeInventory)
  }

  lemma PlannedInventory(platform: Platform, declared: nat, ans: Answers)
    ensures platform == Manual ==>
              && Drop(CompleteNodeInventory) in PlannedWrites(platform, ans)
              && Drop(CompleteNodeInventory) in AppliedWrites(platform, declared, ans)
    ensures platform != Manual ==>
              && (forall w :: w in PlannedWrites(platform, ans) ==> w.kind != CompleteNodeInventory)
              && (forall w :: w in AppliedWrites(platform, declared, ans) ==> w.kind != CompleteNodeInventory)
  {
    assert ForgetCloud[2] in CloudWrites(Manual, ans);
  }

  lemma InventoryReported(exit: Exit, platform: Platform, declared: nat, ans: Answers)
    requires PastDiscovery(exit, platform, ans)
    ensures var ws := WritesOf(exit, platform, declared, ans);
            if platform == Manual then Drop(CompleteNodeInventory) in ws
            else if exit.CloudFailed? || exit == Finished then InventoryWrite(LeftOut(platform, ans)) in ws
            else forall w :: w in ws ==> w.kind != CompleteNodeInventory
  {
    PlannedInventory(platform, declared, ans);
    hide AppliedWrites, PlannedWrites, LeftOut, IncompleteMessage;
  }

  lemma AppliedInventory(c: Config, ans: Answers)
    requires Applies(ExitOf(c.name, c.platform, ans))
    ensures WritesInventory(c, ans)
  {
    var exit := ExitOf(c.name, c.platform, ans);
    InventoryReported(exit, c.platform, c.declaredGroups, ans);
    assert c.platform == Manual ==> LeftOut(c.platform, ans) == [];
    hide ExitOf, WritesOf, LeftOut;
  }

  lemma InventoryWrites(c: Config, ans: Answers)
    ensures WritesInventory(c, ans)
  {
    var exit := ExitOf(c.name, c.platform, ans);
    if Applies(exit) {
      AppliedInventory(c, ans);
    } else {
      hide ExitOf, LeftOut, AppliedWrites, PlannedWrites, IncompleteMessage;
      var ws := WritesOf(exit, c.platform, c.declaredGroups, ans);
      if EndsWindow(c, ans) { assert ws[2] == Drop(CompleteNodeInventory); }
    }
  }

  /** What one pass does to the window: it goes on, ends, or starts at the time
      the pass sets its conditions. */
  lemma WindowStep(c: Config, ans: Answers)
    ensures WindowStart(StatusAfter(c, ans)) ==
            if EndsWindow(c, ans) then None
            else if WindowStart(c.status).None? && SeesIncomplete(c, ans) then Some(ans.setAt)
            else WindowStart(c.status)
  {
    var exit := ExitOf(c.name, c.platform, ans);
    var ws := WritesOf(exit, c.platform, c.declaredGroups, ans);
    NoConditionTwice(c, ans);
    InventoryWrites(c, ans);
    LookupAfterAll(c.status.conditions, ws, c.generation, ans.setAt, CompleteNodeInventory);
  }

  /** The verdict of a pass that gets to the end with nodes left out: Degraded
      once the window is five minutes old, Configuring until then. */
  lemma WindowVerdict(c: Config, ans: Answers)
    requires ExitOf(c.name, c.platform, ans) == Finished && LeftOut(c.platform, ans) != []
    ensures var start := if WindowStart(c.status).Some? then WindowStart(c.status).value else ans.setAt;
            StatusAfter(c, ans).phase == if ans.doneAt >= start + INVENTORY_GRACE then Degraded else Configuring
  {
    WindowStep(c, ans);
  }

  /** A run of passes over a configuration that is not being deleted, each pass
      stored or not, the spec edited in between. */
  ghost predicate IsLiveRun(configs: seq<Config>, answers: seq<Answers>) {
    && |configs| == |answers| + 1
    && forall i :: 0 <= i < |answers| ==> LiveStep(configs[i], answers[i], configs[i + 1])
  }

  predicate LiveStep(c: Config, ans: Answers, next: Config) {
    !c.deleting && Pass(c, [], ans).Some? && Edited(Pass(c, [], ans).value, next)
  }

  /** Whether the pass changed the stored status at all. */
  predicate Lands(c: Config, ans: Answers) {
    ans.readOk && TookEffect(ans.statusWrite) && (c.name != SINGLETON_NAME || c.finalizer || ans.finalizerWrite.Done?)
  }

  lemma LiveStepStatus(c: Config, ans: Answers, next: Config)
    requires LiveStep(c, ans, next)
    ensures next.status == if Lands(c, ans) then StatusAfter(c, ans) else c.status
  {
    assert StatusAfter(c.(finalizer := true), ans) == StatusAfter(c, ans);
  }

  /** An open window keeps its start for as long as no stored pass ends it, so
      that after any number of passes, failed ones included, the verdict is the
      one counted from the first. */
  lemma {:induction false} WindowHoldsOverRun(configs: seq<Config>, answers: seq<Answers>, start: nat)
    requires IsLiveRun(configs, answers) && WindowStart(configs[0].status) == Some(start)
    requires forall i :: 0 <= i < |answers| ==> Lands(configs[i], answers[i]) ==> !EndsWindow(configs[i], answers[i])
    ensures WindowStart(configs[|answers|].status) == Some(start)
    decreases |answers|
  {
    if answers != [] {
      var n := |answers| - 1;
      WindowHoldsOverRun(configs[..n + 1], answers[..n], start);
      LiveStepStatus(configs[n], answers[n], configs[n + 1]);
      WindowStep(configs[n], answers[n]);
    }
  }

  lemma VerdictAfterRun(configs: seq<Config>, answers: seq<Answers>, start: nat, ans: Answers)
    requires IsLiveRun(configs, answers) && WindowStart(configs[0].status) == Some(start)
    requires forall i :: 0 <= i < |answers| ==> Lands(configs[i], answers[i]) ==> !EndsWindow(configs[i], answers[i])
    requires var c := configs[|answers|];
             ExitOf(c.name, c.platform, ans) == Finished && LeftOut(c.platform, ans) != []
    ensures StatusAfter(configs[|answers|], ans).phase ==
            if ans.doneAt >= start + INVENTORY_GRACE then Degraded else Configuring
  {
    WindowHoldsOverRun(configs, answers, start);
    WindowVerdict(configs[|answers|], ans);
  }

  /** No window opens for as long as no stored pass finds a node incomplete. */
  lemma {:induction false} WindowStaysClosed(configs: seq<Config>, answers: seq<Answers>)
    requires IsLiveRun(configs, answers) && WindowStart(configs[0].status) == None
    requires forall i :: 0 <= i < |answers| && Lands(configs[i], answers[i]) ==> !SeesIncomplete(configs[i], answers[i])
    ensures WindowStart(configs[|answers|].status) == None
    decreases |answers|
  {
    if answers != [] {
      var n := |answers| - 1;
      WindowStaysClosed(configs[..n + 1], answers[..n]);
      LiveStepStatus(configs[n], answers[n], configs[n + 1]);
      WindowStep(configs[n], answers[n]);
    }
  }

  /** After a stored pass that ended the window, and any number of passes none of
      which stored an incomplete node, the next one that leaves a node out starts
      afresh. */
  lemma FreshWindow(configs: seq<Config>, answers: seq<Answers>, starts: Answers)
    requires IsLiveRun(configs, answers) && answers != []
    requires Lands(configs[0], answers[0]) && EndsWindow(configs[0], answers[0])
    requires forall i :: 0 < i < |answers| && Lands(configs[i], answers[i]) ==> !SeesIncomplete(configs[i], answers[i])
    requires SeesIncomplete(configs[|answers|], starts)
    ensures WindowStart(StatusAfter(configs[|answers|], starts)) == Some(starts.setAt)
  {
    LiveStepStatus(configs[0], answers[0], configs[1]);
    WindowStep(configs[0], answers[0]);
    WindowStaysClosed(configs[1..], answers[1..]);
    assert configs[1..][|answers| - 1] == configs[|answers|];
    EndsIsNotIncomplete(configs[|answers|], starts);
    WindowStep(configs[|answers|], starts);
  }

  lemma EndsIsNotIncomplete(c: Config, ans: Answers)
    ensures !(EndsWindow(c, ans) && SeesIncomplete(c, ans))
  {}

  // ----------------------------------------------------------------------- router nodes

  /** Every listed node is reconciled or reported, never both, and the first
      happens exactly when it has an internal address, a zone and a provider. */
  lemma {:induction false} NodesPartitioned(nodes: seq<Node>)
    ensures |CompleteNodes(nodes)| + |IncompleteNodes(nodes)| == |nodes|
    ensures forall n :: n in nodes ==>
              (AsRouterNode(n) in CompleteNodes(nodes) <==> IsComplete(AsRouterNode(n)))
              && (AsRouterNode(n) in IncompleteNodes(nodes) <==> !IsComplete(AsRouterNode(n)))
    ensures forall r :: r in CompleteNodes(nodes) ==> IsComplete(r)
    ensures forall r :: r in IncompleteNodes(nodes) ==> !IsComplete(r)
  {
    if nodes != [] {
      NodesPartitioned(nodes[..|nodes| - 1]);
      assert nodes == nodes[..|nodes| - 1] + [nodes[|nodes| - 1]];
    }
  }
}
