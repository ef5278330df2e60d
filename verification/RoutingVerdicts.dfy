/** What the network and the status of a BGPRouting read, name by name and label by
    label. */
module RoutingVerdicts {
  import opened Options
  import opened Outcomes
  import opened Conditions
  import opened Labels
  import opened RoutingController
  import opened RoutingSafety

  // ----------------------------------------------------------------------- the network

  /** Selected by the shared RouteAdvertisements, which takes the networks with this
      label and no others. */
  predicate Selected(u: Udn) {
    "advertise" in u.labels && u.labels["advertise"] == "true"
  }

  predicate CarriesMark(u: Udn) {
    && "app.kubernetes.io/managed-by" in u.labels
    && u.labels["app.kubernetes.io/managed-by"] == "bgp-cloud-connector"
  }

  /** The routing's network is there, over its subnets, selected and marked as
      managed. */
  predicate InPlace(udns: map<string, Udn>, r: Routing) {
    var key := "cluster-udn-" + r.network;
    && key in udns && udns[key].subnets == r.subnets
    && Selected(udns[key]) && CarriesMark(udns[key])
  }

  lemma InPlaceExactly(udns: map<string, Udn>, r: Routing)
    ensures InPlace(udns, r) <==> UdnGood(udns, r)
  {
    assert "advertise" in UdnLabels() && "app.kubernetes.io/managed-by" in UdnLabels();
  }

  /** Advertised: the network is in place, and so is the object that selects it. */
  predicate Advertised(w: World, r: Routing) {
    InPlace(w.udns, r) && w.advertised
  }

  /** Once the queue is empty, after any history, every Ready routing is advertised. */
  lemma DrainedIsAdvertised(events: seq<Event>, states: seq<World>)
    requires IsRun(events, states) && states[|events|].queue == {}
    ensures var w := states[|events|];
            forall a :: a in w.routings && w.routings[a].status.phase == Ready ==> Advertised(w, w.routings[a])
  {
    var w := states[|events|];
    forall a | a in w.routings && w.routings[a].status.phase == Ready ensures Advertised(w, w.routings[a]) {
      DrainedQueueIsConsistent(events, states, a);
      InPlaceExactly(w.udns, w.routings[a]);
    }
  }

  /** And in every reachable state a Ready routing that is not advertised is queued. */
  lemma UnadvertisedIsQueued(events: seq<Event>, states: seq<World>, a: string)
    requires IsRun(events, states) && a in states[|events|].routings
    requires var w := states[|events|];
             w.routings[a].status.phase == Ready && !Advertised(w, w.routings[a])
    ensures a in states[|events|].queue
  {
    InvariantOverRuns(events, states);
    InPlaceExactly(states[|events|].udns, states[|events|].routings[a]);
  }

  // ------------------------------------------------------------------------ the status

  /** The pass gets as far as its verdict, and stores it. */
  predicate Reports(w: World, a: string, ans: Answers) {
    && a in w.routings && !w.routings[a].deleting && ans.readOk && ans.listOk
    && (w.routings[a].finalizer || ans.finalizerWrite.Done?) && TookEffect(ans.statusWrite)
  }

  /** The status after the pass, for the present spec. The next pass, unless the call
      fails, is due after so many seconds, or only when something changes. */
  predicate Ends(w: World, a: string, ans: Answers, phase: Phase, seconds: Option<nat>)
    requires a in w.routings
  {
    var next := Pass(w, a, ans);
    && a in next.routings && next.routings[a].status.phase == phase
    && next.routings[a].status.observed == w.routings[a].generation
    && RequeueSeconds(ExitOf(w, a, ans)) == seconds
  }

  predicate Shows(w: World, a: string, ans: Answers, kind: Kind, status: bool, reason: Reason, message: Message)
    requires a in w.routings
  {
    var next := Pass(w, a, ans);
    && a in next.routings
    && var found := Lookup(next.routings[a].status.conditions, kind);
       && found.Some? && found.value.status == status && found.value.reason == reason
       && found.value.message == message && found.value.generation == w.routings[a].generation
  }

  lemma ReportedStatus(w: World, a: string, ans: Answers)
    requires Reports(w, a, ans)
    ensures var exit, next := ExitOf(w, a, ans), Pass(w, a, ans);
            && exit != Failed && a in next.routings
            && next.routings[a].status == StatusAfter(exit, w.routings[a], ans.now)
  {
    var w0 := w.(queue := w.queue - {a});
    assert ExitOf(w0, a, ans) == ExitOf(w, a, ans);
    LivePassFacts(w0, a, ans);
  }

  lemma ExitEnds(w: World, a: string, ans: Answers)
    requires Reports(w, a, ans)
    ensures var exit := ExitOf(w, a, ans);
            exit != Failed && Ends(w, a, ans, PhaseOf(exit), RequeueSeconds(exit))
  {
    ReportedStatus(w, a, ans);
    hide Pass, ExitOf;
  }

  lemma WrittenIsShown(w: World, a: string, ans: Answers, v: Write)
    requires Reports(w, a, ans) && v.Put? && v in WritesOf(ExitOf(w, a, ans), w.routings[a].network)
    ensures Shows(w, a, ans, v.kind, v.status, v.reason, v.message)
  {
    ReportedStatus(w, a, ans);
    var r := w.routings[a];
    LookupAfterAll(r.status.conditions, WritesOf(ExitOf(w, a, ans), r.network), r.generation, ans.now, v.kind);
    hide Pass, ExitOf, PerformAll, WritesOf, Reports;
  }

  /** Alone on its name, a routing gets past the listing. */
  lemma AloneExit(w: World, a: string, ans: Answers)
    requires Reports(w, a, ans) && Lists(ans.list, w.routings) && Alone(w.routings, a)
    ensures ExitOf(w, a, ans) == NetworkExit(ans)
  {
    DuplicateIffShared(w, a, ans);
  }

  /** A name that is taken: the first other routing listed on it is named, and no later
      pass is due. */
  lemma DuplicateVerdict(w: World, a: string, ans: Answers)
    requires Reports(w, a, ans) && Lists(ans.list, w.routings) && !Alone(w.routings, a)
    ensures Ends(w, a, ans, Degraded, None)
    ensures exists i :: 0 <= i < |ans.list| && IsFirstOther(w.routings, a, ans.list, i)
              && Shows(w, a, ans, NetworkCreated, false, ReasonDuplicateNetwork,
                       SaysDuplicate(w.routings[a].network, ans.list[i]))
  {
    var r := w.routings[a];
    DuplicateIffShared(w, a, ans);
    FirstOtherReads(ans.list, w.routings, a);
    ExitEnds(w, a, ans);
    hide Pass, Shows, Ends;
    var other := FirstOther(ans.list, w.routings, a, r.network).value;
    WrittenIsShown(w, a, ans, Put(NetworkCreated, false, ReasonDuplicateNetwork, SaysDuplicate(r.network, other)));
  }

  predicate IsFirstOther(routings: map<string, Routing>, a: string, list: seq<string>, i: int)
    requires a in routings
  {
    && 0 <= i < |list| && SharesName(routings, a, list[i])
    && forall j :: 0 <= j < i ==> !SharesName(routings, a, list[j])
  }

  predicate SharesName(routings: map<string, Routing>, a: string, b: string)
    requires a in routings
  {
    b != a && b in routings && routings[b].network == routings[a].network
  }

  lemma {:induction false} FirstOtherReads(list: seq<string>, routings: map<string, Routing>, a: string)
    requires a in routings
    ensures var f := FirstOther(list, routings, a, routings[a].network);
            f.Some? ==> exists i :: 0 <= i < |list| && IsFirstOther(routings, a, list, i) && list[i] == f.value
  {
    var f := FirstOther(list, routings, a, routings[a].network);
    if f.Some? {
      if SharesName(routings, a, list[0]) {
        assert IsFirstOther(routings, a, list, 0);
      } else {
        FirstOtherReads(list[1..], routings, a);
        var i :| 0 <= i < |list[1..]| && IsFirstOther(routings, a, list[1..], i) && list[1..][i] == f.value;
        assert IsFirstOther(routings, a, list, i + 1) by {
          forall j | 0 <= j < i + 1 ensures !SharesName(routings, a, list[j]) {
            assert j > 0 ==> list[j] == list[1..][j - 1];
          }
        }
      }
    }
  }

  /** Alone on its name, with the cloud configuration not Ready: it waits, saying
      nothing. */
  lemma WaitingVerdict(w: World, a: string, ans: Answers)
    requires Reports(w, a, ans) && Lists(ans.list, w.routings) && Alone(w.routings, a) && ans.config != Some(Ready)
    ensures Ends(w, a, ans, Pending, Some(10))
    ensures Pass(w, a, ans).routings[a].status.conditions == []
  {
    AloneExit(w, a, ans);
    ReportedStatus(w, a, ans);
  }

  /** The write about the network, by what went wrong. */
  lemma NetworkWrite(ans: Answers, network: string)
    requires ans.config == Some(Ready)
    ensures var ws := WritesOf(NetworkExit(ans), network);
            ws != [] && ws[0] ==
              match ans.namespaceError
              case Some(text) => Put(NetworkCreated, false, ReasonNamespaceNotReady, SaysNamespaceFailed(text))
              case None =>
                match ans.udn
                case EnsureRefused(text) => Put(NetworkCreated, false, ReasonCUDNSpecInvalid, Says(text))
                case EnsureFailed(text, _) => Put(NetworkCreated, false, ReasonCUDNFailed, SaysUdnFailed(text))
                case EnsureOk => Put(NetworkCreated, true, ReasonCreated, SaysUdnEnsured("cluster-udn-" + network))
    ensures var exit, refused := NetworkExit(ans), ans.namespaceError.None? && ans.udn.EnsureRefused?;
            ans.namespaceError.Some? || !ans.udn.EnsureOk? ==>
              PhaseOf(exit) == Degraded && RequeueSeconds(exit) == if refused then None else Some(30)
  {}

  /** Phase 1. */
  lemma NetworkVerdict(w: World, a: string, ans: Answers)
    requires Reports(w, a, ans) && Lists(ans.list, w.routings) && Alone(w.routings, a) && ans.config == Some(Ready)
    ensures match ans.namespaceError
            case Some(text) =>
              && Ends(w, a, ans, Degraded, Some(30))
              && Shows(w, a, ans, NetworkCreated, false, ReasonNamespaceNotReady, SaysNamespaceFailed(text))
            case None =>
              match ans.udn
              case EnsureRefused(text) =>
                && Ends(w, a, ans, Degraded, None)
                && Shows(w, a, ans, NetworkCreated, false, ReasonCUDNSpecInvalid, Says(text))
              case EnsureFailed(text, _) =>
                && Ends(w, a, ans, Degraded, Some(30))
                && Shows(w, a, ans, NetworkCreated, false, ReasonCUDNFailed, SaysUdnFailed(text))
              case EnsureOk =>
                Shows(w, a, ans, NetworkCreated, true, ReasonCreated,
                      SaysUdnEnsured("cluster-udn-" + w.routings[a].network))
  {
    AloneExit(w, a, ans);
    ExitEnds(w, a, ans);
    NetworkWrite(ans, w.routings[a].network);
    hide *;
    WrittenIsShown(w, a, ans, WritesOf(NetworkExit(ans), w.routings[a].network)[0]);
  }

  /** Phase 2, and the end. */
  lemma AdvertisementsVerdict(w: World, a: string, ans: Answers)
    requires Reports(w, a, ans) && Lists(ans.list, w.routings) && Alone(w.routings, a) && ans.config == Some(Ready)
    requires ans.namespaceError.None? && ans.udn.EnsureOk?
    ensures InPlace(Pass(w, a, ans).udns, w.routings[a])
    ensures if ans.advertisements.EnsureOk? then
              && Ends(w, a, ans, Ready, Some(300)) && Pass(w, a, ans).advertised
              && Shows(w, a, ans, RouteAdvertisementsCreated, true, ReasonCreated, SaysAdvertised)
            else
              && Ends(w, a, ans, Degraded, Some(30))
              && Shows(w, a, ans, RouteAdvertisementsCreated, false, ReasonRAFailed,
                       SaysAdvertisingFailed(ans.advertisements.text))
  {
    AloneExit(w, a, ans);
    ExitEnds(w, a, ans);
    NetworkIsWritten(w, a, ans);
    hide ExitOf, Pass, Shows, Ends, InPlace;
    WrittenIsShown(w, a, ans, WritesOf(ExitOf(w, a, ans), w.routings[a].network)[1]);
  }

  /** What else a network is labelled with stays, and every other network. */
  ghost predicate KeepsOthers(before: map<string, Udn>, after: map<string, Udn>, key: string) {
    && (forall other :: other != key ==> At(after, other) == At(before, other))
    && (key in before ==> key in after)
    && forall k :: key in before && k in before[key].labels && k != "advertise" && k != LABEL_MANAGED_BY ==>
         k in after[key].labels && after[key].labels[k] == before[key].labels[k]
  }

  lemma EnsuredReads(udns: map<string, Udn>, r: Routing)
    ensures var after := udns[UdnKey(r.network) := EnsuredUdn(udns, r)];
            InPlace(after, r) && KeepsOthers(udns, after, "cluster-udn-" + r.network)
  {
    EnsuredInPlace(udns, r);
    hide InPlace;
  }

  lemma EnsuredInPlace(udns: map<string, Udn>, r: Routing)
    ensures InPlace(udns[UdnKey(r.network) := EnsuredUdn(udns, r)], r)
  {
    InPlaceExactly(udns[UdnKey(r.network) := EnsuredUdn(udns, r)], r);
    if UdnKey(r.network) in udns { MergeSatisfies(udns[UdnKey(r.network)].labels, UdnLabels()); }
  }

  lemma WrittenUdns(w: World, a: string, exit: Exit, ans: Answers)
    requires a in w.routings && (exit.Complete? || exit.AdvertisementsFailed?)
    ensures var r := w.routings[a];
            Written(w, a, exit, ans).udns == w.udns[UdnKey(r.network) := EnsuredUdn(w.udns, r)]
  {
    var key, next := UdnKey(w.routings[a].network), EnsuredUdn(w.udns, w.routings[a]);
    hide UdnKey, EnsuredUdn, UdnGood;
    if At(w.udns, key) == Some(next) { assert w.udns[key := next] == w.udns; }
  }

  /** The network is in place once both checks before it and its own write went well,
      however the pass ends. */
  lemma NetworkIsWritten(w: World, a: string, ans: Answers)
    requires a in w.routings && !w.routings[a].deleting && ans.readOk
    requires var exit := ExitOf(w, a, ans); exit.Complete? || exit.AdvertisementsFailed?
    ensures var next := Pass(w, a, ans);
            && InPlace(next.udns, w.routings[a])
            && (ExitOf(w, a, ans).Complete? ==> next.advertised)
    ensures KeepsOthers(w.udns, Pass(w, a, ans).udns, "cluster-udn-" + w.routings[a].network)
  {
    var w0 := w.(queue := w.queue - {a});
    var r, exit, claimed := w.routings[a], ExitOf(w, a, ans), Claimed(w0, a, ans);
    assert ExitOf(w0, a, ans) == exit;
    ClaimedFacts(w0, a, ans);
    WrittenUdns(claimed, a, exit, ans);
    StoredFacts(Written(claimed, a, exit, ans), a, exit, ans);
    LivePassFacts(w0, a, ans);
    EnsuredReads(w.udns, r);
    assert EnsuredUdn(claimed.udns, claimed.routings[a]) == EnsuredUdn(w.udns, r);
    assert Pass(w, a, ans).udns == w.udns[UdnKey(r.network) := EnsuredUdn(w.udns, r)];
    hide InPlace, KeepsOthers, Pass, ExitOf;
  }

  /** A pass that gets as far as its verdict and ends Ready leaves its routing
      advertised. */
  lemma ReadyIsAdvertised(w: World, a: string, ans: Answers)
    requires Reports(w, a, ans)
    requires a in Pass(w, a, ans).routings && Pass(w, a, ans).routings[a].status.phase == Ready
    ensures Advertised(Pass(w, a, ans), Pass(w, a, ans).routings[a])
  {
    ReportedStatus(w, a, ans);
    StatusFacts(ExitOf(w, a, ans), w.routings[a], ans.now);
    NetworkIsWritten(w, a, ans);
    LivePassFacts(w.(queue := w.queue - {a}), a, ans);
  }

  /** A pass that does not get that far leaves the status as it is. */
  lemma UnreportedStays(w: World, a: string, ans: Answers)
    requires a in w.routings && !w.routings[a].deleting && !Reports(w, a, ans)
    ensures a in Pass(w, a, ans).routings && Pass(w, a, ans).routings[a].status == w.routings[a].status
  {
    var w0 := w.(queue := w.queue - {a});
    var exit, claimed := ExitOf(w0, a, ans), Claimed(w0, a, ans);
    ClaimedFacts(w0, a, ans);
    if ans.readOk && exit != Failed {
      WrittenFacts(claimed, a, exit, ans);
      hide ExitOf, Claimed, Written, StatusAfter, Terminal, UdnGood, OnlyAbout, EnsuredUdn;
      assert Stored(Written(claimed, a, exit, ans), a, exit, ans).routings == claimed.routings;
    }
  }

  /** A deletion, write by write: the network goes, then the shared object if this is the
      last routing, then the finalizer and the routing with it. What does not come
      through leaves the rest as it is and the request queued. */
  lemma DeletionVerdict(w: World, a: string, ans: Answers)
    requires a in w.routings && w.routings[a].deleting && ans.readOk
    ensures var next, key := Pass(w, a, ans), "cluster-udn-" + w.routings[a].network;
            var last := forall b :: b in w.routings ==> b == a;
            var reached := ans.udnDelete.Done? && ans.listOk;
            var released := reached && (last ==> ans.advertisementsDelete.Done?) && TookEffect(ans.finalizerWrite);
            && (forall other :: At(next.udns, other) ==
                                if other == key && TookEffect(ans.udnDelete) then None else At(w.udns, other))
            && (next.advertised <==> w.advertised && !(reached && last && TookEffect(ans.advertisementsDelete)))
            && next.routings == (if released then w.routings - {a} else w.routings)
            && a in next.queue && (released ==> next.routings.Keys <= next.queue)
  {
    assert w.routings.Keys == {a} <==> forall b :: b in w.routings ==> b == a;
  }
}
