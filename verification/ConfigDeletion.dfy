/** What a deleted BGPCloudConfiguration leaves behind. */
module ConfigDeletion {
  import opened Options
  import opened ConfigController
  import opened ConfigSafety

  /** What serves one node address at one place of a cloud: its peers there, or its
      part of a spoke. */
  datatype Item = Item(platform: Platform, place: string, address: string)

  /** The configuration, the routings there are, whether this operator may have
      FRRConfigurations in the cluster, and which peers and spokes it may have in
      the clouds. */
  datatype Estate = Estate(config: Option<Config>, routings: set<string>, frr: bool, cloud: set<Item>)

  // -------------------------------------------------- what one pass does to the cloud

  predicate Builds(exit: Exit, platform: Platform) {
    platform != Manual && (exit.CloudFailed? || exit == Finished)
  }

  /** Whether the cloud can be asked to clean up at all. */
  predicate Reachable(platform: Platform, ans: Answers) {
    platform != Manual && ans.build.Built? && ans.discovery.Discovered?
  }

  /** The addresses of the nodes handed to the cloud. */
  function Served(ans: Answers): set<string> {
    if ans.nodes.ListError? then {} else set n | n in CompleteNodes(ans.nodes.nodes) :: n.privateIP
  }

  /** The spec of the moment names the place. */
  predicate Named(c: Config, i: Item) {
    i.platform == c.platform && i.place in c.target
  }

  /** A peering whose name Azure's limit cut is not recognised any more. */
  predicate Removable(cluster: string, i: Item) {
    i.platform == Azure ==> |cluster| + |i.address| <= 75
  }

  predicate Works(c: Config, ans: Answers) {
    && ans.readOk && c.name == SINGLETON_NAME && !c.deleting && (c.finalizer || ans.finalizerWrite.Done?)
    && Builds(ExitOf(c.name, c.platform, ans), c.platform) && Served(ans) != {}
  }

  predicate CleansUp(c: Config, ans: Answers) {
    && ans.readOk && c.name == SINGLETON_NAME && c.deleting && ans.routings == Some([])
    && Reachable(c.platform, ans) && ans.cleanupError.None?
  }

  /** The pass asks the cloud for it. */
  predicate Asks(c: Config, ans: Answers, i: Item) {
    Works(c, ans) && Named(c, i) && i.address in Served(ans)
  }

  /** The pass removes it: in a clean-up that succeeds, or because the nodes handed
      over, and all served, do not have the address any more. */
  predicate Removes(cluster: string, c: Config, ans: Answers, i: Item) {
    && Named(c, i) && Removable(cluster, i)
    && (|| CleansUp(c, ans)
        || (Works(c, ans) && ExitOf(c.name, c.platform, ans) == Finished && i.address !in Served(ans)))
  }

  /** Calls that fail may have written, and may not have removed. */
  function CloudAfter(cluster: string, cloud: set<Item>, c: Config, ans: Answers): set<Item> {
    (set i | i in cloud && !Removes(cluster, c, ans, i))
    + if Works(c, ans) then set p, a | p in c.target && a in Served(ans) :: Item(c.platform, p, a) else {}
  }

  lemma CloudIs(cluster: string, cloud: set<Item>, c: Config, ans: Answers, i: Item)
    ensures i in CloudAfter(cluster, cloud, c, ans) <==>
            Asks(c, ans, i) || (i in cloud && !Removes(cluster, c, ans, i))
  {
    hide Works, Served, Removes;
    if Asks(c, ans, i) { assert i == Item(c.platform, i.place, i.address); }
  }

  /** One pass, from what was there to what is. */
  function PassLeaves(cluster: string, e: Estate, sorted: seq<string>, ans: Answers): Estate
    requires e.config.Some?
  {
    var c := e.config.value;
    var next := e.(config := Pass(c, sorted, ans), cloud := CloudAfter(cluster, e.cloud, c, ans));
    if !ans.readOk || c.name != SINGLETON_NAME then next
    else if c.deleting then
      if ans.routings != Some([]) then next
      else next.(frr := e.frr && !(CleanedUp(c.platform, ans) && ans.pruneError.None?))
    else if !c.finalizer && !ans.finalizerWrite.Done? then next
    else next.(frr := e.frr || Applies(ExitOf(c.name, c.platform, ans)))
  }

  // ------------------------------------------------------------------------------- runs

  datatype Event =
    | Reconciled(sorted: seq<string>, ans: Answers)
    | UserCreates(config: Config)
    | UserEdits(config: Config)
    | UserDeletes
    | RoutingsBecome(routings: set<string>)

  ghost predicate Step(cluster: string, e: Estate, event: Event, next: Estate) {
    match event
    case Reconciled(sorted, ans) =>
      && e.config.Some? && (ans.routings.Some? ==> forall r :: r in ans.routings.value <==> r in e.routings)
      && next == PassLeaves(cluster, e, sorted, ans)
    case UserCreates(config) =>
      e.config.None? && !config.deleting && !config.finalizer && next == e.(config := Some(config))
    case UserEdits(config) =>
      && e.config.Some? && Edited(e.config.value, config)
      && config.finalizer == e.config.value.finalizer && config.deleting == e.config.value.deleting
      && next == e.(config := Some(config))
    case UserDeletes =>
      e.config.Some? && var c := e.config.value;
      next == e.(config := if c.finalizer then Some(c.(deleting := true)) else None)
    case RoutingsBecome(routings) => next == e.(routings := routings)
  }

  /** A run in the cluster of the given infrastructure name, from nothing. */
  ghost predicate IsRun(cluster: string, events: seq<Event>, states: seq<Estate>) {
    && |states| == |events| + 1
    && states[0].config.None? && !states[0].frr && states[0].cloud == {}
    && forall i :: 0 <= i < |events| ==> Step(cluster, states[i], events[i], states[i + 1])
  }

  /** FRR objects are only ever there under the finalizer. */
  predicate Guarded(e: Estate) {
    e.frr ==> e.config.Some? && e.config.value.finalizer && e.config.value.name == SINGLETON_NAME
  }

  lemma StepKeepsGuarded(cluster: string, e: Estate, event: Event, next: Estate)
    requires Guarded(e) && Step(cluster, e, event, next)
    ensures Guarded(next)
  {
    hide CloudAfter;
  }

  /** Over every run: once the object is gone, none of the FRR objects made for it
      is left. */
  lemma {:induction false} NothingStranded(cluster: string, events: seq<Event>, states: seq<Estate>)
    requires IsRun(cluster, events, states)
    ensures Guarded(states[|events|])
    ensures states[|events|].config.None? ==> !states[|events|].frr
    decreases |events|
  {
    if events != [] {
      var n := |events| - 1;
      NothingStranded(cluster, events[..n], states[..n + 1]);
      StepKeepsGuarded(cluster, states[n], events[n], states[n + 1]);
    }
  }

  // ------------------------------------------------------------ what stays in the cloud

  predicate AsksAt(e: Estate, event: Event, i: Item) {
    event.Reconciled? && e.config.Some? && Asks(e.config.value, event.ans, i)
  }

  predicate RemovesAt(cluster: string, e: Estate, event: Event, i: Item) {
    event.Reconciled? && e.config.Some? && Removes(cluster, e.config.value, event.ans, i)
  }

  /** Some pass has asked for it, and no later one has removed it. */
  ghost predicate Outstanding(cluster: string, events: seq<Event>, states: seq<Estate>, i: Item)
    requires |states| == |events| + 1
  {
    exists k :: 0 <= k < |events| && AsksAt(states[k], events[k], i)
                && forall j :: k < j < |events| ==> !RemovesAt(cluster, states[j], events[j], i)
  }

  lemma OutstandingStill(cluster: string, events: seq<Event>, states: seq<Estate>, i: Item, n: nat)
    requires |events| == n + 1 && |states| == n + 2
    requires Outstanding(cluster, events[..n], states[..n + 1], i) && !RemovesAt(cluster, states[n], events[n], i)
    ensures Outstanding(cluster, events, states, i)
  {
    var shorter, fewer := events[..n], states[..n + 1];
    hide AsksAt, RemovesAt;
    var k :| 0 <= k < n && AsksAt(fewer[k], shorter[k], i)
             && forall j :: k < j < n ==> !RemovesAt(cluster, fewer[j], shorter[j], i);
    forall j | k < j < |events| ensures !RemovesAt(cluster, states[j], events[j], i) {
      if j < n { assert !RemovesAt(cluster, fewer[j], shorter[j], i); }
    }
    assert AsksAt(states[k], events[k], i);
  }

  lemma OutstandingBefore(cluster: string, events: seq<Event>, states: seq<Estate>, i: Item, n: nat)
    requires |events| == n + 1 && |states| == n + 2
    requires Outstanding(cluster, events, states, i) && !AsksAt(states[n], events[n], i)
    ensures Outstanding(cluster, events[..n], states[..n + 1], i) && !RemovesAt(cluster, states[n], events[n], i)
  {
    var shorter, fewer := events[..n], states[..n + 1];
    hide AsksAt, RemovesAt;
    var k :| 0 <= k < |events| && AsksAt(states[k], events[k], i)
             && forall j :: k < j < |events| ==> !RemovesAt(cluster, states[j], events[j], i);
    assert AsksAt(fewer[k], shorter[k], i);
    forall j | k < j < n ensures !RemovesAt(cluster, fewer[j], shorter[j], i) {
      assert !RemovesAt(cluster, states[j], events[j], i);
    }
  }

  lemma OneMoreEvent(cluster: string, events: seq<Event>, states: seq<Estate>, i: Item, n: nat)
    requires |events| == n + 1 && |states| == n + 2
    ensures Outstanding(cluster, events, states, i) <==>
            || AsksAt(states[n], events[n], i)
            || (Outstanding(cluster, events[..n], states[..n + 1], i) && !RemovesAt(cluster, states[n], events[n], i))
  {
    if AsksAt(states[n], events[n], i) {
    } else if Outstanding(cluster, events, states, i) {
      OutstandingBefore(cluster, events, states, i, n);
    } else if Outstanding(cluster, events[..n], states[..n + 1], i) && !RemovesAt(cluster, states[n], events[n], i) {
      OutstandingStill(cluster, events, states, i, n);
    }
  }

  /** Over every run, whatever the spec named in between: what is in the clouds is
      what some pass asked for and no later one, naming the same place, removed. */
  lemma {:induction false} CloudExactly(cluster: string, events: seq<Event>, states: seq<Estate>, i: Item)
    requires IsRun(cluster, events, states)
    ensures i in states[|events|].cloud <==> Outstanding(cluster, events, states, i)
    decreases |events|
  {
    if events != [] {
      var n := |events| - 1;
      CloudExactly(cluster, events[..n], states[..n + 1], i);
      OneMoreEvent(cluster, events, states, i, n);
      assert Step(cluster, states[n], events[n], states[n + 1]);
      hide Outstanding, IsRun, CloudAfter, Pass, Asks, Removes, ExitOf;
      match events[n] {
        case Reconciled(sorted, ans) => CloudIs(cluster, states[n].cloud, states[n].config.value, ans, i);
        case _ =>
      }
    }
  }

  /** The pass with which the object goes. */
  ghost predicate Releases(cluster: string, events: seq<Event>, states: seq<Estate>) {
    && IsRun(cluster, events, states) && events != []
    && events[|events| - 1].Reconciled? && states[|events|].config.None?
  }

  /** What its clean-up removes: of what the spec names at that moment, what can be
      removed, if the platform could be built and discovered. */
  predicate Reaches(cluster: string, c: Config, ans: Answers, i: Item) {
    Reachable(c.platform, ans) && Named(c, i) && Removable(cluster, i)
  }

  lemma LastPass(cluster: string, e: Estate, event: Event, next: Estate, i: Item)
    requires event.Reconciled? && Step(cluster, e, event, next) && next.config.None?
    ensures !AsksAt(e, event, i)
    ensures RemovesAt(cluster, e, event, i) <==> Reaches(cluster, e.config.value, event.ans, i)
    ensures e.routings == {}
  {
    hide CloudAfter, StatusAfter;
    assert forall r :: r in e.routings ==> r in event.ans.routings.value;
  }

  /** In every run the object goes only after the last routing and the FRR objects,
      and what is then left in the clouds is exactly what is outstanding from the
      run before and out of the last clean-up's reach. */
  lemma WhatGoesLast(cluster: string, events: seq<Event>, states: seq<Estate>, i: Item)
    requires Releases(cluster, events, states)
    ensures var n := |events| - 1;
            var e, ans := states[n], events[n].ans;
            && e.config.Some? && e.routings == {} && !states[n + 1].frr
            && (i in states[n + 1].cloud <==>
                Outstanding(cluster, events[..n], states[..n + 1], i) && !Reaches(cluster, e.config.value, ans, i))
  {
    var n := |events| - 1;
    assert Step(cluster, states[n], events[n], states[n + 1]);
    NothingStranded(cluster, events, states);
    CloudExactly(cluster, events, states, i);
    OneMoreEvent(cluster, events, states, i, n);
    LastPass(cluster, states[n], events[n], states[n + 1], i);
  }

  /** So nothing is left if and only if everything outstanding is at a place that
      the spec names at that moment, that can be reached, under a name that is
      recognised. */
  lemma NothingLeft(cluster: string, events: seq<Event>, states: seq<Estate>)
    requires Releases(cluster, events, states)
    ensures var n := |events| - 1;
            states[n].config.Some? &&
            (states[n + 1].cloud == {} <==>
             forall i :: Outstanding(cluster, events[..n], states[..n + 1], i) ==>
               Reaches(cluster, states[n].config.value, events[n].ans, i))
  {
    var n := |events| - 1;
    var c, ans := states[n].config, events[n].ans;
    assert Step(cluster, states[n], events[n], states[n + 1]);
    if states[n + 1].cloud != {} {
      var i :| i in states[n + 1].cloud;
      WhatGoesLast(cluster, events, states, i);
    }
    forall i | states[n + 1].cloud == {} && Outstanding(cluster, events[..n], states[..n + 1], i)
      ensures Reaches(cluster, c.value, ans, i)
    {
      WhatGoesLast(cluster, events, states, i);
    }
  }

  /** The spec has named one target all along. */
  ghost predicate Steady(states: seq<Estate>, platform: Platform, target: set<string>) {
    forall k :: 0 <= k < |states| && states[k].config.Some? ==>
      states[k].config.value.platform == platform && states[k].config.value.target == target
  }

  lemma OutstandingIsNamed(cluster: string, events: seq<Event>, states: seq<Estate>, platform: Platform,
                           target: set<string>, i: Item)
    requires |states| == |events| + 1 && Steady(states, platform, target)
    requires Outstanding(cluster, events, states, i)
    ensures i.platform == platform && i.place in target
  {
    var k :| 0 <= k < |events| && AsksAt(states[k], events[k], i);
    assert Named(states[k].config.value, i);
  }

  lemma SteadyReach(cluster: string, events: seq<Event>, states: seq<Estate>, platform: Platform,
                    target: set<string>, c: Config, ans: Answers)
    requires |states| == |events| + 1 && Steady(states, platform, target)
    requires c.platform == platform && c.target == target
    ensures (forall i :: Outstanding(cluster, events, states, i) ==> Reaches(cluster, c, ans, i)) <==>
            (forall i :: Outstanding(cluster, events, states, i) ==>
               Reachable(platform, ans) && Removable(cluster, i))
  {
    forall i | Outstanding(cluster, events, states, i)
      ensures Reaches(cluster, c, ans, i) <==> Reachable(platform, ans) && Removable(cluster, i)
    {
      OutstandingIsNamed(cluster, events, states, platform, target, i);
    }
    hide Outstanding, Reaches, Reachable, Removable;
  }

  /** If it has, nothing is left exactly when nothing was outstanding, or the cloud
      could be reached and no outstanding name was cut. */
  lemma SteadyTargetIsReleased(cluster: string, events: seq<Event>, states: seq<Estate>, platform: Platform,
                               target: set<string>)
    requires Releases(cluster, events, states) && Steady(states, platform, target)
    ensures var n := |events| - 1;
            states[n + 1].cloud == {} <==>
            forall i :: Outstanding(cluster, events[..n], states[..n + 1], i) ==>
              Reachable(platform, events[n].ans) && Removable(cluster, i)
  {
    var n := |events| - 1;
    var earlier, before := events[..n], states[..n + 1];
    NothingLeft(cluster, events, states);
    assert Steady(before, platform, target) by { assert forall k :: 0 <= k <= n ==> before[k] == states[k]; }
    SteadyReach(cluster, earlier, before, platform, target, states[n].config.value, events[n].ans);
    hide Outstanding, Reaches, Releases, Steady, Reachable, Removable;
  }

  lemma HasOne(list: seq<string>)
    ensures list == [] || exists r :: r in list
  {
    if list != [] { assert list[0] in list; }
  }

  /** With no routing and no failing call the deletion ends at once. */
  lemma DeletionEnds(cluster: string, e: Estate, sorted: seq<string>, ans: Answers, next: Estate, i: Item)
    requires Step(cluster, e, Event.Reconciled(sorted, ans), next)
    requires e.config.value.deleting && e.config.value.name == SINGLETON_NAME && e.routings == {}
    requires ans.readOk && ans.routings.Some? && ans.cleanupError.None? && ans.pruneError.None?
    requires ans.finalizerWrite.Done?
    ensures next.config.None? && !next.frr
    ensures i in next.cloud <==> i in e.cloud && !Reaches(cluster, e.config.value, ans, i)
  {
    HasOne(ans.routings.value);
    hide CloudAfter, StatusAfter;
    CloudIs(cluster, e.cloud, e.config.value, ans, i);
    LastPass(cluster, e, Event.Reconciled(sorted, ans), next, i);
  }

  /** A run in which the user switches to another platform, or to other places of
      the same one, and then deletes: the clean-up reaches the new ones, and what
      was made at the old stays for good. */
  lemma SwitchStrands(cluster: string, c: Config, platform: Platform, target: set<string>, first: Answers,
                      last: Answers, i: Item)
    returns (events: seq<Event>, states: seq<Estate>)
    requires !c.deleting && !c.finalizer && Asks(c, first, i)
    requires i.platform != platform || i.place !in target
    requires last.readOk && last.routings == Some([]) && Reachable(platform, last)
    requires last.cleanupError.None? && last.pruneError.None? && last.finalizerWrite.Done?
    requires first.routings.Some? ==> first.routings.value == []
    ensures Releases(cluster, events, states) && |events| == 5 && events[2].UserEdits? && events[3].UserDeletes?
    ensures i in states[5].cloud
  {
    var nothing := Estate(None, {}, false, {});
    var created := nothing.(config := Some(c));
    var made := PassLeaves(cluster, created, [], first);
    var d := made.config.value.(platform := platform, target := target);
    var switched := made.(config := Some(d));
    var deleted := switched.(config := Some(d.(deleting := true)));
    var gone := PassLeaves(cluster, deleted, [], last);
    var pass, cleanUp := Event.Reconciled([], first), Event.Reconciled([], last);
    events := [UserCreates(c), pass, Event.UserEdits(d), UserDeletes, cleanUp];
    states := [nothing, created, made, switched, deleted, gone];
    hide CloudAfter, StatusAfter, Works;
    CloudIs(cluster, {}, c, first, i);
    CloudIs(cluster, made.cloud, deleted.config.value, last, i);
  }
}
