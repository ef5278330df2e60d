/** What every reachable state of the BGPRouting controller satisfies. */
module RoutingSafety {
  import opened Options
  import opened Outcomes
  import opened Conditions
  import opened Labels
  import opened RoutingController

  predicate Alone(routings: map<string, Routing>, a: string)
    requires a in routings
  {
    forall b :: b in routings && b != a ==> routings[b].network != routings[a].network
  }

  predicate HasReason(r: Routing, reason: Reason) {
    var c := Lookup(r.status.conditions, NetworkCreated);
    c.Some? && c.value.reason == reason
  }

  /** A routing that needs no attention: it is not being deleted, its finalizer
      is in place, its spec has been seen; if it is Ready it is alone on its
      network and the network is as it wrote it; if it reports a duplicate there
      is one; and either a later pass is scheduled or only the user can help. */
  predicate AtRest(w: World, a: string)
    requires a in w.routings
  {
    var r := w.routings[a];
    && !r.deleting && r.finalizer && r.status.observed == r.generation
    && (r.status.phase == Ready ==> Alone(w.routings, a) && UdnGood(w.udns, r))
    && (HasReason(r, ReasonDuplicateNetwork) ==> !Alone(w.routings, a))
    && (a in w.timers || HasReason(r, ReasonDuplicateNetwork) || HasReason(r, ReasonCUDNSpecInvalid))
  }

  /** No wake-up is ever lost, and the shared RouteAdvertisements is there while
      any routing that is not being deleted is Ready. */
  predicate Invariant(w: World) {
    && (forall a :: a in w.routings ==> a in w.queue || AtRest(w, a))
    && (forall a :: a in w.routings && !w.routings[a].deleting && w.routings[a].status.phase == Ready ==>
          w.advertised)
  }

  // -------------------------------------------------------------------- listings

  lemma {:induction false} FirstOnFinds(list: seq<string>, routings: map<string, Routing>, network: string)
    ensures var f := FirstOn(list, routings, network);
            f.Some? ==> f.value in routings && f.value in list && routings[f.value].network == network
    ensures FirstOn(list, routings, network).None? ==>
              forall a :: a in list && a in routings ==> routings[a].network != network
  {
    if list != [] {
      FirstOnFinds(list[1..], routings, network);
      assert list == [list[0]] + list[1..];
    }
  }

  lemma {:induction false} FirstOtherFinds(list: seq<string>, routings: map<string, Routing>, a: string,
                                           network: string)
    ensures var f := FirstOther(list, routings, a, network);
            f.Some? ==> f.value in routings && f.value != a && routings[f.value].network == network
    ensures FirstOther(list, routings, a, network).None? ==>
              forall b :: b in list && b in routings && b != a ==> routings[b].network != network
  {
    if list != [] {
      FirstOtherFinds(list[1..], routings, a, network);
      assert list == [list[0]] + list[1..];
    }
  }

  lemma DuplicateIffShared(w: World, a: string, ans: Answers)
    requires a in w.routings && Lists(ans.list, w.routings)
    ensures FirstOther(ans.list, w.routings, a, w.routings[a].network).Some? <==> !Alone(w.routings, a)
  {
    FirstOtherFinds(ans.list, w.routings, a, w.routings[a].network);
  }

  /** A change to a managed network wakes the only routing on it. */
  lemma ManagedChangeWakes(key: string, udn: Udn, list: seq<string>, routings: map<string, Routing>, a: string)
    requires Lists(list, routings) && a in routings && Alone(routings, a) && key == UdnKey(routings[a].network)
    requires Satisfied(udn.labels, UdnLabels())
    ensures MapUdn(key, Some(udn), list, routings) == {a}
  {
    assert LABEL_MANAGED_BY in UdnLabels();
    NetworkOfKey(routings[a].network);
    FirstOnFinds(list, routings, routings[a].network);
  }

  // ------------------------------------------------------------------- one pass

  lemma StatusFacts(exit: Exit, r: Routing, now: nat)
    requires exit != Failed
    ensures var s := r.(status := StatusAfter(exit, r, now));
            && s.status.observed == r.generation
            && (s.status.phase == Ready <==> exit == Complete)
            && (HasReason(s, ReasonDuplicateNetwork) <==> exit.Duplicate?)
            && (HasReason(s, ReasonCUDNSpecInvalid) <==> exit.UdnInvalid?)
  {
    if exit != ConfigNotReady {
      var ws := WritesOf(exit, r.network);
      LookupAfterAll(r.status.conditions, ws, r.generation, now, NetworkCreated);
      assert ws[0] in ws && ws[0].kind == NetworkCreated;
    }
  }

  lemma EnsuredIsGood(w: World, a: string)
    requires a in w.routings
    ensures var r := w.routings[a]; UdnGood(w.udns[UdnKey(r.network) := EnsuredUdn(w.udns, r)], r)
  {
    var r := w.routings[a];
    if UdnKey(r.network) in w.udns { MergeSatisfies(w.udns[UdnKey(r.network)].labels, UdnLabels()); }
  }

  lemma OtherKeepsRest(w: World, next: World, a: string, b: string)
    requires a in w.routings && b in w.routings && a != b && next.routings.Keys == w.routings.Keys
    requires next.routings == w.routings[a := next.routings[a]]
    requires next.routings[a].network == w.routings[a].network
    requires forall key :: key != UdnKey(w.routings[a].network) ==> At(next.udns, key) == At(w.udns, key)
    requires w.timers <= next.timers
    requires AtRest(w, b)
    ensures AtRest(next, b)
  {
    var r := w.routings[b];
    assert Alone(next.routings, b) == Alone(w.routings, b);
    if r.status.phase == Ready {
      assert r.network != w.routings[a].network;
      NetworkOfKey(r.network);
      NetworkOfKey(w.routings[a].network);
      assert At(next.udns, UdnKey(r.network)) == At(w.udns, UdnKey(r.network));
    }
  }

  /** A world that differs in routing a, its network and its wake-ups only. */
  ghost predicate OnlyAbout(w: World, next: World, a: string)
    requires a in w.routings
  {
    && next.routings.Keys == w.routings.Keys
    && next.routings == w.routings[a := next.routings[a]]
    && next.routings[a].network == w.routings[a].network
    && next.routings[a].subnets == w.routings[a].subnets
    && next.routings[a].generation == w.routings[a].generation
    && next.routings[a].deleting == w.routings[a].deleting
    && w.timers <= next.timers && w.queue <= next.queue
    && (forall key :: key != UdnKey(w.routings[a].network) ==> At(next.udns, key) == At(w.udns, key))
  }

  lemma ClaimedFacts(w: World, a: string, ans: Answers)
    requires a in w.routings
    ensures var next := Claimed(w, a, ans);
            && OnlyAbout(w, next, a)
            && next.routings[a]
               == w.routings[a].(finalizer := w.routings[a].finalizer || TookEffect(ans.finalizerWrite))
            && next.advertised == w.advertised && next.udns == w.udns
            && (w.routings[a].finalizer ==> next == w)
  {}

  lemma WrittenFacts(w: World, a: string, exit: Exit, ans: Answers)
    requires a in w.routings
    ensures var next := Written(w, a, exit, ans);
            && OnlyAbout(w, next, a)
            && next.routings == w.routings && next.timers == w.timers
            && (next.advertised <==> w.advertised || AdvertisementsTook(exit, ans))
            && (exit == Complete ==> UdnGood(next.udns, w.routings[a]))
  {
    EnsuredIsGood(w, a);
    var r, next := w.routings[a], EnsuredUdn(w.udns, w.routings[a]);
    if At(w.udns, UdnKey(r.network)) == Some(next) {
      assert w.udns[UdnKey(r.network) := next] == w.udns;
    }
  }

  lemma SameRoutings(w: World, next: World, a: string)
    requires a in w.routings && next.routings == w.routings && next.udns == w.udns
    requires w.timers <= next.timers && w.queue <= next.queue
    ensures OnlyAbout(w, next, a)
  {
    assert w.routings[a := w.routings[a]] == w.routings;
  }

  lemma OneStatus(w: World, next: World, a: string, status: Status)
    requires a in w.routings && next.routings == w.routings[a := w.routings[a].(status := status)]
    requires next.udns == w.udns && w.timers <= next.timers && w.queue <= next.queue
    ensures OnlyAbout(w, next, a)
  {}

  lemma StoredAbout(w: World, a: string, exit: Exit, ans: Answers)
    requires a in w.routings
    ensures OnlyAbout(w, Stored(w, a, exit, ans), a)
  {
    hide StatusAfter, Terminal, OnlyAbout;
    var next, status := Stored(w, a, exit, ans), StatusAfter(exit, w.routings[a], ans.now);
    if status == w.routings[a].status || ans.statusWrite.NotDone? {
      SameRoutings(w, next, a);
    } else {
      OneStatus(w, next, a, status);
    }
  }

  lemma StoredStatus(w: World, a: string, exit: Exit, ans: Answers)
    requires a in w.routings
    ensures var next, status := Stored(w, a, exit, ans), StatusAfter(exit, w.routings[a], ans.now);
            && next.advertised == w.advertised && next.udns == w.udns && a in next.routings
            && next.routings[a] == w.routings[a].(status := next.routings[a].status)
            && (next.routings[a].status == w.routings[a].status || next.routings[a].status == status)
            && (TookEffect(ans.statusWrite) ==> next.routings[a].status == status)
  {
    hide StatusAfter, Terminal;
  }

  lemma StoredUnqueued(w: World, a: string, exit: Exit, ans: Answers)
    requires a in w.routings
    ensures a !in Stored(w, a, exit, ans).queue ==>
              w.routings[a].status == StatusAfter(exit, w.routings[a], ans.now)
              && Stored(w, a, exit, ans) == Scheduled(w, a, exit)
  {
    hide StatusAfter, Terminal;
  }

  lemma StoredFacts(w: World, a: string, exit: Exit, ans: Answers)
    requires a in w.routings
    ensures var next, status := Stored(w, a, exit, ans), StatusAfter(exit, w.routings[a], ans.now);
            && OnlyAbout(w, next, a)
            && next.advertised == w.advertised && next.udns == w.udns
            && next.routings[a] == w.routings[a].(status := next.routings[a].status)
            && (next.routings[a].status == w.routings[a].status || next.routings[a].status == status)
            && (TookEffect(ans.statusWrite) ==> next.routings[a].status == status)
            && (a !in next.queue ==>
                  w.routings[a].status == status && next == Scheduled(w, a, exit))
  {
    StoredAbout(w, a, exit, ans);
    StoredStatus(w, a, exit, ans);
    StoredUnqueued(w, a, exit, ans);
    hide *;
  }

  lemma StatusAfterIgnoresFinalizer(exit: Exit, r: Routing, now: nat, finalizer: bool)
    ensures StatusAfter(exit, r.(finalizer := finalizer), now) == StatusAfter(exit, r, now)
  {}

  lemma LivePassFacts(w: World, a: string, ans: Answers)
    requires a in w.routings
    ensures var next, exit := LivePass(w, a, ans), ExitOf(w, a, ans);
            && OnlyAbout(w, next, a)
            && (next.routings[a].status == w.routings[a].status
                || (exit != Failed && next.routings[a].status == StatusAfter(exit, w.routings[a], ans.now)))
            && (exit != Failed && TookEffect(ans.statusWrite) ==>
                  next.routings[a].status == StatusAfter(exit, w.routings[a], ans.now))
            && (next.advertised <==> w.advertised || AdvertisementsTook(exit, ans))
            && (exit == Complete ==> UdnGood(next.udns, next.routings[a]))
  {
    var exit, claimed := ExitOf(w, a, ans), Claimed(w, a, ans);
    ClaimedFacts(w, a, ans);
    if exit != Failed {
      WrittenFacts(claimed, a, exit, ans);
      StoredFacts(Written(claimed, a, exit, ans), a, exit, ans);
      StatusAfterIgnoresFinalizer(exit, w.routings[a], ans.now, claimed.routings[a].finalizer);
    }
  }

  /** A pass that does not put its own request back has written nothing. */
  lemma UnqueuedFacts(w: World, a: string, ans: Answers)
    requires a in w.routings && a !in LivePass(w, a, ans).queue
    ensures var next, exit := LivePass(w, a, ans), ExitOf(w, a, ans);
            && exit != Failed && w.routings[a].finalizer && next.routings == w.routings
            && w.routings[a].status == StatusAfter(exit, w.routings[a], ans.now)
            && (a in next.timers || Terminal(exit))
  {
    var exit := ExitOf(w, a, ans);
    ClaimedFacts(w, a, ans);
    assert Claimed(w, a, ans) == w && exit != Failed;
    assert LivePass(w, a, ans) == Stored(Written(w, a, exit, ans), a, exit, ans);
    hide LivePass, Claimed, ExitOf, Written, Stored, StatusAfter, EnsuredUdn, UdnGood;
    WrittenFacts(w, a, exit, ans);
    StoredFacts(Written(w, a, exit, ans), a, exit, ans);
  }

  /** A pass that does not put its own request back leaves its routing at rest. */
  lemma LivePassRests(w: World, a: string, ans: Answers)
    requires a in w.routings && !w.routings[a].deleting && Lists(ans.list, w.routings)
    ensures var next := LivePass(w, a, ans);
            a in next.routings && (a in next.queue || AtRest(next, a))
  {
    var r, next, exit := w.routings[a], LivePass(w, a, ans), ExitOf(w, a, ans);
    LivePassFacts(w, a, ans);
    if a !in next.queue {
      UnqueuedFacts(w, a, ans);
      StatusFacts(exit, r, ans.now);
      DuplicateIffShared(w, a, ans);
      ExitFacts(w, a, ans);
      hide LivePass, StatusAfter, HasReason, ExitOf, UdnGood, Alone;
      assert r.(status := r.status) == r;
    }
  }

  lemma ExitFacts(w: World, a: string, ans: Answers)
    requires a in w.routings
    ensures var exit := ExitOf(w, a, ans);
            var other := FirstOther(ans.list, w.routings, a, w.routings[a].network);
            && (exit.Duplicate? ==> other.Some?)
            && (exit.Complete? ==> other.None?)
            && (Terminal(exit) <==> exit.Duplicate? || exit.UdnInvalid?)
  {}

  lemma PassKeepsInvariant(w: World, a: string, ans: Answers)
    requires Invariant(w) && Enabled(w, Reconciled(a, ans))
    ensures Invariant(Pass(w, a, ans))
  {
    var w0 := w.(queue := w.queue - {a});
    var next := Pass(w, a, ans);
    if ans.readOk && a in w.routings {
      if w.routings[a].deleting {
        DeletePassKeeps(w, a, ans);
      } else {
        LivePassFacts(w0, a, ans);
        LivePassRests(w0, a, ans);
        forall b | b in next.routings ensures b in next.queue || AtRest(next, b) {
          if b != a && b !in w.queue { OtherKeepsRest(w, next, a, b); }
        }
        var exit := ExitOf(w0, a, ans);
        if exit != Failed { StatusFacts(exit, w.routings[a], ans.now); }
      }
    }
  }

  lemma DeletePassKeeps(w: World, a: string, ans: Answers)
    requires Invariant(w) && Enabled(w, Reconciled(a, ans)) && a in w.routings && w.routings[a].deleting
    ensures Invariant(DeletePass(w.(queue := w.queue - {a}), a, ans))
  {
    var next := DeletePass(w.(queue := w.queue - {a}), a, ans);
    if a in next.routings {
      assert next.routings == w.routings[a := next.routings[a]];
      forall b | b in next.routings ensures b in next.queue || AtRest(next, b) {
        if b != a && b !in w.queue { OtherKeepsRest(w, next, a, b); }
      }
    }
  }

  // ------------------------------------------------------------------ every event

  lemma UdnChangeKeeps(w: World, key: string, udn: Option<Udn>, watchList: seq<string>)
    requires Invariant(w) && Enabled(w, UdnChanges(key, udn, watchList))
    ensures Invariant(Next(w, UdnChanges(key, udn, watchList)))
  {
    var next := Next(w, UdnChanges(key, udn, watchList));
    forall a | a in next.routings ensures a in next.queue || AtRest(next, a) {
      var r := w.routings[a];
      if a !in w.queue && r.status.phase == Ready && key == UdnKey(r.network) {
        ManagedChangeWakes(key, w.udns[key], watchList, w.routings, a);
      }
    }
  }

  lemma EditKeeps(w: World, a: string, network: string, subnets: seq<string>)
    requires Invariant(w) && a in w.routings
    ensures Invariant(Next(w, UserEdits(a, network, subnets)))
  {
    var next := Next(w, UserEdits(a, network, subnets));
    if network == w.routings[a].network && subnets != w.routings[a].subnets {
      forall b | b in next.routings ensures b in next.queue || AtRest(next, b) {
        if b != a && b !in w.queue { OtherKeepsRest(w, next, a, b); }
      }
    }
  }

  lemma DeleteKeeps(w: World, a: string, bump: bool)
    requires Invariant(w) && a in w.routings
    ensures Invariant(Next(w, UserDeletes(a, bump)))
  {
    var next := Next(w, UserDeletes(a, bump));
    if w.routings[a].finalizer {
      forall b | b in next.routings ensures b in next.queue || AtRest(next, b) {
        if b != a && b !in w.queue { OtherKeepsRest(w, next, a, b); }
      }
    }
  }

  lemma EveryEventKeeps(w: World, e: Event)
    requires Invariant(w) && Enabled(w, e)
    ensures Invariant(Next(w, e))
  {
    match e
    case Reconciled(a, ans) => PassKeepsInvariant(w, a, ans);
    case UserCreates(a, network, subnets) =>
    case UserEdits(a, network, subnets) => EditKeeps(w, a, network, subnets);
    case UserDeletes(a, bump) => DeleteKeeps(w, a, bump);
    case UdnChanges(key, next, watchList) => UdnChangeKeeps(w, key, next, watchList);
    case TimerFires(a) =>
    case Restarts(udns) =>
  }

  /** A run from an empty cluster. */
  ghost predicate IsRun(events: seq<Event>, states: seq<World>) {
    && |states| == |events| + 1
    && states[0].routings == map[]
    && forall i :: 0 <= i < |events| ==> Enabled(states[i], events[i]) && states[i + 1] == Next(states[i], events[i])
  }

  lemma {:induction false} InvariantOverRuns(events: seq<Event>, states: seq<World>)
    requires IsRun(events, states)
    ensures Invariant(states[|events|])
    decreases |events|
  {
    if events != [] {
      var n := |events| - 1;
      InvariantOverRuns(events[..n], states[..n + 1]);
      EveryEventKeeps(states[n], events[n]);
    }
  }

  /** Once the queue is empty, after any history: nothing is being deleted, every
      spec has been seen, every Ready routing is alone on its network with its
      objects in place, every reported duplicate is real, and every routing not
      waiting on its user will be looked at again. */
  lemma DrainedQueueIsConsistent(events: seq<Event>, states: seq<World>, a: string)
    requires IsRun(events, states) && states[|events|].queue == {} && a in states[|events|].routings
    ensures var w := states[|events|];
            var r := w.routings[a];
            && !r.deleting && r.finalizer && r.status.observed == r.generation
            && (r.status.phase == Ready ==> Alone(w.routings, a) && UdnGood(w.udns, r) && w.advertised)
            && (HasReason(r, ReasonDuplicateNetwork) ==> !Alone(w.routings, a))
            && (a in w.timers || HasReason(r, ReasonDuplicateNetwork) || HasReason(r, ReasonCUDNSpecInvalid))
  {
    InvariantOverRuns(events, states);
  }

  /** A deleted duplicate takes the network of its name with it, whoever else uses
      it: exactly the routings on that name are left without one. */
  lemma DeletionTakesNetwork(w: World, a: string, ans: Answers, b: string)
    requires a in w.routings && w.routings[a].deleting && ans.readOk && b in w.routings && b != a
    requires UdnGood(w.udns, w.routings[b])
    ensures var next := Pass(w, a, ans);
            && b in next.routings && next.routings[b] == w.routings[b]
            && (!UdnGood(next.udns, next.routings[b]) <==>
                TookEffect(ans.udnDelete) && w.routings[b].network == w.routings[a].network)
  {
    NetworkOfKey(w.routings[a].network);
    NetworkOfKey(w.routings[b].network);
  }

  /** And in every reachable state a routing that reads Ready and has lost its
      network is queued, so it stays queued until a pass has repaired it or has
      changed its status. */
  lemma OwnerWaitsForRepair(events: seq<Event>, states: seq<World>, b: string)
    requires IsRun(events, states) && b in states[|events|].routings
    requires var w := states[|events|];
             w.routings[b].status.phase == Ready && !UdnGood(w.udns, w.routings[b])
    ensures b in states[|events|].queue
  {
    InvariantOverRuns(events, states);
  }

  // ------------------------------------------------------ one owner for a network

  /** Ready for the spec it has now. */
  predicate Current(r: Routing) {
    r.status.phase == Ready && r.status.observed == r.generation
  }

  predicate OneOwner(w: World) {
    && (forall a :: a in w.routings ==> w.routings[a].status.observed <= w.routings[a].generation)
    && (forall a, b :: a in w.routings && b in w.routings && a != b ==>
          !(Current(w.routings[a]) && Current(w.routings[b]) && w.routings[a].network == w.routings[b].network))
  }

  /** A step of one routing that becomes Ready only when alone. */
  lemma OneOwnerStep(w: World, next: World, a: string)
    requires OneOwner(w) && a in w.routings && OnlyAbout(w, next, a)
    requires next.routings[a].status == w.routings[a].status
             || (next.routings[a].status.observed == w.routings[a].generation
                 && (next.routings[a].status.phase == Ready ==> Alone(w.routings, a)))
    ensures OneOwner(next)
  {
    assert Current(next.routings[a]) ==> Current(w.routings[a]) || Alone(w.routings, a);
  }

  lemma LivePassKeepsOneOwner(w: World, a: string, ans: Answers)
    requires OneOwner(w) && a in w.routings && Lists(ans.list, w.routings)
    ensures OneOwner(LivePass(w, a, ans))
  {
    LivePassFacts(w, a, ans);
    DuplicateIffShared(w, a, ans);
    var exit := ExitOf(w, a, ans);
    if exit != Failed { StatusFacts(exit, w.routings[a], ans.now); }
    OneOwnerStep(w, LivePass(w, a, ans), a);
  }

  lemma PassKeepsOneOwner(w: World, a: string, ans: Answers)
    requires OneOwner(w) && Enabled(w, Reconciled(a, ans))
    ensures OneOwner(Pass(w, a, ans))
  {
    var w0 := w.(queue := w.queue - {a});
    if ans.readOk && a in w.routings {
      if w.routings[a].deleting {
        var next := DeletePass(w0, a, ans);
        assert next.routings == w.routings || next.routings == w.routings - {a};
      } else {
        LivePassKeepsOneOwner(w0, a, ans);
      }
    }
  }

  lemma EveryEventKeepsOneOwner(w: World, e: Event)
    requires OneOwner(w) && Enabled(w, e)
    ensures OneOwner(Next(w, e))
  {
    if e.Reconciled? { PassKeepsOneOwner(w, e.a, e.ans); }
  }

  /** No two routings are ever Ready for their present spec with one network
      name, deleted ones included and whether or not deletion counts as a new
      generation. */
  lemma {:induction false} NeverTwoOwners(events: seq<Event>, states: seq<World>)
    requires IsRun(events, states)
    ensures OneOwner(states[|events|])
    decreases |events|
  {
    if events != [] {
      var n := |events| - 1;
      NeverTwoOwners(events[..n], states[..n + 1]);
      EveryEventKeepsOneOwner(states[n], events[n]);
    }
  }

  // --------------------------------------------------------- progress and quiet

  /** A pass in which nothing fails makes its routing Ready exactly when it is
      alone on its network name. */
  lemma ReadyIffAlone(w: World, a: string, ans: Answers)
    requires a in w.routings && !w.routings[a].deleting && Lists(ans.list, w.routings)
    requires ans.readOk && ans.finalizerWrite.Done? && ans.listOk && ans.statusWrite.Done? && ans.config == Some(Ready)
    requires ans.namespaceError.None? && ans.udn.EnsureOk? && ans.advertisements.EnsureOk?
    ensures var next := Pass(w, a, ans);
            && a in next.routings
            && (next.routings[a].status.phase == Ready <==> Alone(w.routings, a))
            && (Alone(w.routings, a) ==> UdnGood(next.udns, next.routings[a]) && next.advertised)
            && (!Alone(w.routings, a) ==> HasReason(next.routings[a], ReasonDuplicateNetwork))
  {
    var w0 := w.(queue := w.queue - {a});
    var r, exit := w.routings[a], ExitOf(w0, a, ans);
    LivePassFacts(w0, a, ans);
    DuplicateIffShared(w0, a, ans);
    StatusFacts(exit, r, ans.now);
    assert Pass(w, a, ans) == LivePass(w0, a, ans);
  }
}
