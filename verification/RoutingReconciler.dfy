/** The BGPRouting controller step by step, over the state it changes in place. */
module RoutingReconciler {
  import opened Options
  import opened Outcomes
  import opened Conditions
  import opened Labels
  import opened RoutingController

  /** What a reconcile call hands back to its work queue. */
  datatype Result = Result(requeueAfter: Option<nat>, failed: bool)

  class Reconciler {
    var routings: map<string, Routing>
    var udns: map<string, Udn>
    var advertised: bool
    var queue: set<string>
    var timers: set<string>

    constructor ()
      ensures State() == World(map[], map[], false, {}, {})
    {
      routings, udns, advertised, queue, timers := map[], map[], false, {}, {};
    }

    ghost function State(): World
      reads this
    {
      World(routings, udns, advertised, queue, timers)
    }

    // ----------------------------------------------------- the API server's side

    /** Stores a routing and delivers the update to the watch on its kind. */
    method UpdateRouting(a: string, r: Routing)
      requires a in routings && r.network == routings[a].network
      modifies this
      ensures State() == old(State()).(routings := old(routings)[a := r], queue := old(queue) + {a})
    {
      routings := routings[a := r];
      queue := queue + {a};
    }

    /** mapClusterUDNToRouting. */
    method MapClusterUdnToRouting(key: string, labels: LabelMap, list: seq<string>) returns (requests: set<string>)
      ensures forall subnets: seq<string> :: requests == MapUdn(key, Some(Udn(labels, subnets)), list, routings)
    {
      if Value(labels, LABEL_MANAGED_BY) != LABEL_MANAGED_BY_VALUE { return {}; }
      var network := NetworkOf(key);
      for i := 0 to |list|
        invariant FirstOn(list, routings, network) == FirstOn(list[i..], routings, network)
      {
        assert list[i..][1..] == list[i + 1..];
        if list[i] in routings && routings[list[i]].network == network { return {list[i]}; }
      }
      return {};
    }

    /** Stores, or with None deletes, a network and delivers the event. */
    method ChangeUdn(key: string, next: Option<Udn>, list: seq<string>)
      modifies this
      ensures State() == Next(old(State()), UdnChanges(key, next, list))
    {
      var woken: set<string> := {};
      if key in udns {
        woken := MapClusterUdnToRouting(key, udns[key].labels, list);
        assert udns[key] == Udn(udns[key].labels, udns[key].subnets);
      }
      if next.Some? {
        var more := MapClusterUdnToRouting(key, next.value.labels, list);
        assert next.value == Udn(next.value.labels, next.value.subnets);
        woken := woken + more;
      }
      udns := if next.Some? then udns[key := next.value] else udns - {key};
      queue := queue + woken;
    }

    // --------------------------------------------------------- the objects written

    /** EnsureClusterUDN, which is createOrUpdate on the rendered object. A refused
        write has no effect, another failed one may have. */
    method EnsureClusterUdn(r: Routing, list: seq<string>, answer: Ensured) returns (ok: bool)
      modifies this
      ensures ok <==> answer.EnsureOk?
      ensures var key, next := UdnKey(r.network), EnsuredUdn(old(udns), r);
              State() == if !EnsureTook(answer) || At(old(udns), key) == Some(next) then old(State())
                         else Next(old(State()), UdnChanges(key, Some(next), list))
    {
      ok := answer.EnsureOk?;
      if !EnsureTook(answer) { return; }
      var key := UdnKey(r.network);
      if key !in udns {
        ChangeUdn(key, Some(Udn(UdnLabels(), r.subnets)), list);
      } else {
        var existing := udns[key];
        var labelled := LabelsSatisfied(existing.labels, UdnLabels());
        if existing.subnets == r.subnets && labelled { return; }
        var labels := MergeLabels(existing.labels, UdnLabels());
        MergedDiffers(existing, r);
        ChangeUdn(key, Some(Udn(labels, r.subnets)), list);
      }
    }

    /** patchRoutingStatus: no write where the status is already the stored one. */
    method PatchRoutingStatus(a: string, routing: Routing, baseline: Status, desired: Status, write: WriteOutcome)
      returns (ok: bool)
      requires a in routings && routings[a] == routing.(status := baseline)
      modifies this
      ensures ok <==> desired == baseline || write.Done?
      ensures desired == baseline || write.NotDone? ==> State() == old(State())
      ensures desired != baseline && TookEffect(write) ==>
                State() == old(State()).(routings := old(routings)[a := routing.(status := desired)],
                                         queue := old(queue) + {a})
    {
      if baseline == desired { return true; }
      if write.NotDone? { return false; }
      UpdateRouting(a, routing.(status := desired));
      return write.Done?;
    }

    method SetDegraded(a: string, routing: Routing, baseline: Status, kind: Kind, reason: Reason, message: Message,
                       write: WriteOutcome, now: nat)
      returns (result: Result)
      requires a in routings && routings[a] == routing.(status := baseline)
      modifies this
      ensures Stores(old(State()), State(), a,
                     Status(Degraded, routing.status.observed,
                            Perform(routing.status.conditions, Put(kind, false, reason, message),
                                    routing.generation, now)),
                     if IsTerminal(reason) then None else Some(30), write, result)
    {
      var terminal := IsTerminal(reason);
      var conditions := SetCondition(routing.status.conditions,
                                     Condition(kind, false, reason, message, routing.generation, 0), now);
      var ok := PatchRoutingStatus(a, routing, baseline, Status(Degraded, routing.status.observed, conditions), write);
      if !ok { return Result(None, true); }
      if terminal { return Result(None, false); }
      return Result(Some(30), false);
    }

    // -------------------------------------------------------------------- the pass

    /** Reconcile. The request has been taken off the queue already. */
    method Reconcile(a: string, ans: Answers) returns (result: Result)
      modifies this
      ensures !ans.readOk ==> result.failed && State() == old(State())
      ensures ans.readOk && a !in old(routings) ==> result == Result(None, false) && State() == old(State())
      ensures ans.readOk && a in old(routings) && old(routings)[a].deleting ==>
                result.requeueAfter == None && Returned(State(), a, result) == DeletePass(old(State()), a, ans)
      ensures ans.readOk && a in old(routings) && !old(routings)[a].deleting ==>
                && Returned(State(), a, result) == LivePass(old(State()), a, ans)
                && (!result.failed ==> result.requeueAfter == RequeueSeconds(ExitOf(old(State()), a, ans)))
    {
      if !ans.readOk { return Result(None, true); }
      if a !in routings { return Result(None, false); }
      var routing := routings[a];
      var baseline := routing.status;

      if routing.deleting {
        result := ReconcileDelete(a, routing, ans);
        return;
      }

      if !routing.finalizer {
        if ans.finalizerWrite.NotDone? { return Result(None, true); }
        routing := routing.(finalizer := true);
        UpdateRouting(a, routing);
        if !ans.finalizerWrite.Done? { return Result(None, true); }
      }
      assert State() == Claimed(old(State()), a, ans);

      routing := routing.(status := routing.status.(phase := Configuring));
      routing := routing.(status := routing.status.(observed := routing.generation));
      if !ans.listOk { return Result(None, true); }
      FirstOtherSameNetworks(ans.list, old(routings), routings, a, routing.network);
      result := ReconcileLive(a, routing, baseline, ans);
    }

    /** From the listing on. */
    method ReconcileLive(a: string, routing: Routing, baseline: Status, ans: Answers) returns (result: Result)
      requires a in routings && routings[a] == routing.(status := baseline)
      requires routing.status == Status(Configuring, routing.generation, baseline.conditions)
      modifies this
      ensures var other := FirstOther(ans.list, old(routings), a, routing.network);
              var exit := if other.Some? then Duplicate(other.value) else NetworkExit(ans);
              && Returned(State(), a, result) == Stored(Written(old(State()), a, exit, ans), a, exit, ans)
              && (!result.failed ==> result.requeueAfter == RequeueSeconds(exit))
    {
      var other := FindDuplicate(a, routing.network, ans.list);
      if other.Some? {
        ghost var w := State();
        result := SetDegraded(a, routing, baseline, NetworkCreated, ReasonDuplicateNetwork,
          SaysDuplicate(routing.network, other.value), ans.statusWrite, ans.now);
        OneWrite(baseline.conditions, WritesOf(Duplicate(other.value), routing.network), routing.generation, ans.now);
        StoresIsStored(w, State(), a, Duplicate(other.value), ans, result);
        return;
      }
      result := ReconcileConfigured(a, routing, baseline, ans);
    }

    /** The pre-check for another routing on the same network. */
    method FindDuplicate(a: string, network: string, list: seq<string>) returns (other: Option<string>)
      ensures other == FirstOther(list, routings, a, network)
    {
      for i := 0 to |list|
        invariant FirstOther(list, routings, a, network) == FirstOther(list[i..], routings, a, network)
      {
        assert list[i..][1..] == list[i + 1..];
        if list[i] != a && list[i] in routings && routings[list[i]].network == network { return Some(list[i]); }
      }
      return None;
    }

    /** From the check of the BGPCloudConfiguration on. */
    method ReconcileConfigured(a: string, routing: Routing, baseline: Status, ans: Answers) returns (result: Result)
      requires a in routings && routings[a] == routing.(status := baseline)
      requires routing.status == Status(Configuring, routing.generation, baseline.conditions)
      modifies this
      ensures var exit := NetworkExit(ans);
              && Returned(State(), a, result) == Stored(Written(old(State()), a, exit, ans), a, exit, ans)
              && (!result.failed ==> result.requeueAfter == RequeueSeconds(exit))
    {
      ghost var w, exit := State(), NetworkExit(ans);
      if ans.config == None || ans.config.value != Ready {
        var ok := PatchRoutingStatus(a, routing, baseline, routing.status.(phase := Pending, conditions := []),
                                     ans.statusWrite);
        result := if ok then Result(Some(10), false) else Result(None, true);
        StoresIsStored(w, State(), a, exit, ans, result);
        return;
      }

      if ans.namespaceError.Some? {
        result := FailNetwork(a, routing, baseline, ReasonNamespaceNotReady,
          SaysNamespaceFailed(ans.namespaceError.value), ans, w);
        return;
      }
      var ok := EnsureClusterUdn(routing, ans.watchList, ans.udn);
      EnsuredIsWritten(w, State(), a, routing, ans);
      if !ok {
        if ans.udn.EnsureRefused? {
          result := FailNetwork(a, routing, baseline, ReasonCUDNSpecInvalid, Says(ans.udn.text), ans, w);
        } else {
          result := FailNetwork(a, routing, baseline, ReasonCUDNFailed, SaysUdnFailed(ans.udn.text), ans, w);
        }
        return;
      }
      result := ReconcileAdvertisements(a, routing, baseline, ans, w);
    }

    /** The exits on which the network is not in place. */
    method FailNetwork(a: string, routing: Routing, baseline: Status, reason: Reason, message: Message, ans: Answers,
                       ghost w: World)
      returns (result: Result)
      requires a in routings && routings[a] == routing.(status := baseline)
      requires routing.status == Status(Configuring, routing.generation, baseline.conditions)
      requires var exit := NetworkExit(ans);
               && (exit.NamespaceNotReady? || exit.UdnInvalid? || exit.UdnFailed?)
               && WritesOf(exit, routing.network) == [Put(NetworkCreated, false, reason, message)]
      requires a in w.routings && w.routings[a] == routings[a] && State() == Written(w, a, NetworkExit(ans), ans)
      modifies this
      ensures var exit := NetworkExit(ans);
              && Returned(State(), a, result) == Stored(Written(w, a, exit, ans), a, exit, ans)
              && (!result.failed ==> result.requeueAfter == RequeueSeconds(exit))
    {
      ghost var was, exit := State(), NetworkExit(ans);
      result := SetDegraded(a, routing, baseline, NetworkCreated, reason, message, ans.statusWrite, ans.now);
      OneWrite(baseline.conditions, WritesOf(exit, routing.network), routing.generation, ans.now);
      StoresIsStored(was, State(), a, exit, ans, result);
    }

    /** From the moment the network is in place on. */
    method ReconcileAdvertisements(a: string, routing0: Routing, baseline: Status, ans: Answers, ghost w: World)
      returns (result: Result)
      requires a in routings && routings[a] == routing0.(status := baseline)
      requires routing0.status == Status(Configuring, routing0.generation, baseline.conditions)
      requires NetworkExit(ans).AdvertisementsFailed? || NetworkExit(ans).Complete?
      requires a in w.routings && w.routings[a] == routings[a]
      requires State() == EnsuredWorld(w, a, ans)
      modifies this
      ensures var exit := NetworkExit(ans);
              && Returned(State(), a, result) == Stored(Written(w, a, exit, ans), a, exit, ans)
              && (!result.failed ==> result.requeueAfter == RequeueSeconds(exit))
    {
      ghost var exit := NetworkExit(ans);
      WrittenByExit(w, a, ans);
      var routing := routing0.(status := routing0.status.(conditions :=
        SetCondition(routing0.status.conditions,
          Condition(NetworkCreated, true, ReasonCreated, SaysUdnEnsured(UdnKey(routing0.network)),
                    routing0.generation, 0),
          ans.now)));
      advertised := advertised || EnsureTook(ans.advertisements);
      assert State() == Written(w, a, exit, ans);
      if !ans.advertisements.EnsureOk? {
        result := FailAdvertisements(a, routing, baseline, ans);
      } else {
        result := Finish(a, routing, baseline, ans);
      }
    }

    /** With the condition for the network set, the status is about to get the last. */
    ghost predicate NetworkReported(a: string, routing: Routing, baseline: Status, ans: Answers)
      reads this
    {
      && a in routings && routings[a] == routing.(status := baseline)
      && routing.status == Status(Configuring, routing.generation,
                                  Perform(baseline.conditions, NetworkOk(routing.network), routing.generation, ans.now))
    }

    method FailAdvertisements(a: string, routing: Routing, baseline: Status, ans: Answers) returns (result: Result)
      requires NetworkReported(a, routing, baseline, ans) && NetworkExit(ans).AdvertisementsFailed?
      modifies this
      ensures var exit := NetworkExit(ans);
              && Returned(State(), a, result) == Stored(old(State()), a, exit, ans)
              && (!result.failed ==> result.requeueAfter == RequeueSeconds(exit))
    {
      ghost var was, exit := State(), NetworkExit(ans);
      TwoWrites(baseline.conditions, WritesOf(exit, routing.network), routing.generation, ans.now);
      result := SetDegraded(a, routing, baseline, RouteAdvertisementsCreated, ReasonRAFailed,
        SaysAdvertisingFailed(ans.advertisements.text), ans.statusWrite, ans.now);
      StoresIsStored(was, State(), a, exit, ans, result);
    }

    method Finish(a: string, routing0: Routing, baseline: Status, ans: Answers) returns (result: Result)
      requires NetworkReported(a, routing0, baseline, ans) && NetworkExit(ans).Complete?
      modifies this
      ensures var exit := NetworkExit(ans);
              && Returned(State(), a, result) == Stored(old(State()), a, exit, ans)
              && (!result.failed ==> result.requeueAfter == RequeueSeconds(exit))
    {
      ghost var was, exit := State(), NetworkExit(ans);
      TwoWrites(baseline.conditions, WritesOf(exit, routing0.network), routing0.generation, ans.now);
      var routing := routing0.(status := routing0.status.(conditions :=
        SetCondition(routing0.status.conditions,
          Condition(RouteAdvertisementsCreated, true, ReasonCreated, SaysAdvertised, routing0.generation, 0),
          ans.now)));
      var ok := PatchRoutingStatus(a, routing, baseline, routing.status.(phase := Ready), ans.statusWrite);
      result := if ok then Result(Some(300), false) else Result(None, true);
      StoresIsStored(was, State(), a, exit, ans, result);
    }

    /** How many listed routings there are besides a. */
    method CountOthers(a: string) returns (remaining: nat)
      requires a in routings
      ensures remaining == 0 <==> routings.Keys == {a}
    {
      remaining := 0;
      ghost var others: set<string> := {};
      var todo := routings.Keys;
      while todo != {}
        invariant todo <= routings.Keys && remaining == |others|
        invariant forall b :: b in others <==> b in routings && b !in todo && b != a
      {
        var b :| b in todo;
        if b != a {
          remaining := remaining + 1;
          others := others + {b};
        }
        todo := todo - {b};
      }
      NoOthers(others, a);
    }

    lemma NoOthers(others: set<string>, a: string)
      requires a in routings && forall b :: b in others <==> b in routings && b != a
      ensures |others| == 0 <==> routings.Keys == {a}
    {
      assert routings.Keys == others + {a};
    }

    method ReconcileDelete(a: string, routing: Routing, ans: Answers) returns (result: Result)
      requires a in routings && routings[a] == routing && routing.deleting
      modifies this
      ensures result.requeueAfter == None
      ensures Returned(State(), a, result) == DeletePass(old(State()), a, ans)
    {
      if ans.udnDelete.NotDone? { return Result(None, true); }
      var key := UdnKey(routing.network);
      if key in udns { ChangeUdn(key, None, ans.watchList); }
      assert old(udns) - {key} == udns;
      if !ans.udnDelete.Done? { return Result(None, true); }

      if !ans.listOk { return Result(None, true); }
      result := Release(a, ans);
    }

    /** The shared object, if this is the last routing, and then the finalizer. */
    method Release(a: string, ans: Answers) returns (result: Result)
      requires a in routings
      modifies this
      ensures result.requeueAfter == None
      ensures var last := old(routings).Keys == {a};
              var gone := last && TookEffect(ans.advertisementsDelete);
              var cleaned := old(State()).(advertised := old(advertised) && !gone);
              Returned(State(), a, result) ==
              if last && !ans.advertisementsDelete.Done? then cleaned.(queue := cleaned.queue + {a})
              else if ans.finalizerWrite.NotDone? then cleaned.(queue := cleaned.queue + {a})
              else Vanished(cleaned, a)
    {
      var remaining := CountOthers(a);
      if remaining == 0 {
        if TookEffect(ans.advertisementsDelete) { advertised := false; }
        if !ans.advertisementsDelete.Done? { return Result(None, true); }
      }
      if ans.finalizerWrite.NotDone? { return Result(None, true); }
      // Without its last finalizer the object goes.
      routings := routings - {a};
      queue := queue + {a} + routings.Keys;
      return Result(None, !ans.finalizerWrite.Done?);
    }

    /** Takes one request off the queue and does with the outcome what the work
        queue does. */
    method ProcessNext(a: string, ans: Answers)
      requires a in queue
      modifies this
      ensures State() == Pass(old(State()), a, ans)
    {
      queue := queue - {a};
      var result := Reconcile(a, ans);
      if result.failed {
        queue := queue + {a};
      } else if result.requeueAfter.Some? {
        timers := timers + {a};
      }
      assert !ans.readOk ==> queue == old(queue);
    }
  }

  /** The pending requests once a call has returned. */
  ghost function Returned(w: World, a: string, result: Result): World {
    if result.failed then w.(queue := w.queue + {a})
    else if result.requeueAfter.Some? then w.(timers := w.timers + {a})
    else w
  }

  /** What storing a status amounts to: nothing where it is the stored one, an
      error where the write fails, and otherwise an update. */
  ghost predicate Stores(w: World, next: World, a: string, desired: Status, requeue: Option<nat>, write: WriteOutcome,
                         result: Result)
    requires a in w.routings
  {
    if desired == w.routings[a].status then result == Result(requeue, false) && next == w
    else if write.NotDone? then result == Result(None, true) && next == w
    else
      && result == (if write.Done? then Result(requeue, false) else Result(None, true))
      && next == w.(routings := w.routings[a := w.routings[a].(status := desired)], queue := w.queue + {a})
  }

  lemma StoresIsStored(w: World, next: World, a: string, exit: Exit, ans: Answers, result: Result)
    requires a in w.routings && exit != Failed
    requires Stores(w, next, a, StatusAfter(exit, w.routings[a], ans.now), RequeueSeconds(exit), ans.statusWrite,
                    result)
    ensures Returned(next, a, result) == Stored(w, a, exit, ans)
    ensures !result.failed ==> result.requeueAfter == RequeueSeconds(exit)
  {}

  /** The network as it is once EnsureClusterUDN has returned. */
  ghost function EnsuredWorld(w: World, a: string, ans: Answers): World
    requires a in w.routings
  {
    var key, next := UdnKey(w.routings[a].network), EnsuredUdn(w.udns, w.routings[a]);
    if !EnsureTook(ans.udn) || At(w.udns, key) == Some(next) then w
    else Next(w, UdnChanges(key, Some(next), ans.watchList))
  }

  /** Written is that, and the shared object. */
  lemma WrittenByExit(w: World, a: string, ans: Answers)
    requires a in w.routings
    requires var exit := NetworkExit(ans); exit.AdvertisementsFailed? || exit.Complete?
    ensures var exit := NetworkExit(ans);
            && Written(w, a, exit, ans)
               == EnsuredWorld(w, a, ans).(advertised := w.advertised || EnsureTook(ans.advertisements))
            && Written(w, a, exit, ans).routings == w.routings
  {}

  lemma EnsuredIsWritten(w: World, next: World, a: string, routing: Routing, ans: Answers)
    requires a in w.routings && ans.config == Some(Ready) && ans.namespaceError.None?
    requires routing.network == w.routings[a].network && routing.subnets == w.routings[a].subnets
    requires var key, udn := UdnKey(routing.network), EnsuredUdn(w.udns, routing);
             next == if !EnsureTook(ans.udn) || At(w.udns, key) == Some(udn) then w
                     else Next(w, UdnChanges(key, Some(udn), ans.watchList))
    ensures next == EnsuredWorld(w, a, ans) && next.routings == w.routings
    ensures !ans.udn.EnsureOk? ==> next == Written(w, a, NetworkExit(ans), ans)
  {
    assert EnsuredUdn(w.udns, routing) == EnsuredUdn(w.udns, w.routings[a]);
  }

  lemma {:induction false} FirstOtherSameNetworks(list: seq<string>, before: map<string, Routing>,
                                                  after: map<string, Routing>, a: string, network: string)
    requires before.Keys == after.Keys && forall b :: b in before ==> before[b].network == after[b].network
    ensures FirstOther(list, before, a, network) == FirstOther(list, after, a, network)
  {
    if list != [] { FirstOtherSameNetworks(list[1..], before, after, a, network); }
  }

  lemma MergedDiffers(existing: Udn, r: Routing)
    requires !(existing.subnets == r.subnets && Satisfied(existing.labels, UdnLabels()))
    ensures existing != Udn(existing.labels + UdnLabels(), r.subnets)
  {
    MergeSatisfies(existing.labels, UdnLabels());
  }

  lemma OneWrite(cs: seq<Condition>, ws: seq<Write>, generation: nat, now: nat)
    requires |ws| == 1
    ensures PerformAll(cs, ws, generation, now) == Perform(cs, ws[0], generation, now)
  {
    assert ws == [] + [ws[0]];
    PerformOneMore(cs, [], ws[0], generation, now);
  }

  lemma TwoWrites(cs: seq<Condition>, ws: seq<Write>, generation: nat, now: nat)
    requires |ws| == 2
    ensures PerformAll(cs, ws, generation, now)
            == Perform(Perform(cs, ws[0], generation, now), ws[1], generation, now)
  {
    assert ws == [ws[0]] + [ws[1]];
    PerformOneMore(cs, [ws[0]], ws[1], generation, now);
    OneWrite(cs, [ws[0]], generation, now);
  }
}
