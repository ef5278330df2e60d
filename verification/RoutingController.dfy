/** The BGPRouting controller with its work queue: one reconcile pass per
    request, and the watches that put requests back. */
module RoutingController {
  import opened Options
  import opened Outcomes
  import opened Conditions
  import opened Labels

  const UDN_NAME_PREFIX := "cluster-udn-"

  datatype Status = Status(phase: Phase, observed: nat, conditions: seq<Condition>)

  /** A BGPRouting. `finalizer` is this controller's; no other is modelled. */
  datatype Routing = Routing(network: string, subnets: seq<string>, generation: nat, deleting: bool,
                             finalizer: bool, status: Status)

  /** A ClusterUserDefinedNetwork, as far as the controller writes it. */
  datatype Udn = Udn(labels: LabelMap, subnets: seq<string>)

  /** The cluster, the pending requests, and the requests due at a later time. */
  datatype World = World(routings: map<string, Routing>, udns: map<string, Udn>, advertised: bool,
                         queue: set<string>, timers: set<string>)

  function UdnLabels(): LabelMap {
    map["advertise" := "true", LABEL_MANAGED_BY := LABEL_MANAGED_BY_VALUE]
  }

  function UdnKey(network: string): string {
    UDN_NAME_PREFIX + network
  }

  /** strings.TrimPrefix of the object name. */
  function NetworkOf(key: string): string {
    if UDN_NAME_PREFIX <= key then key[|UDN_NAME_PREFIX|..] else key
  }

  lemma NetworkOfKey(network: string)
    ensures NetworkOf(UdnKey(network)) == network
  {}

  /** The two-item comparison createOrUpdate makes before it writes. */
  predicate UdnGood(udns: map<string, Udn>, r: Routing) {
    var key := UdnKey(r.network);
    key in udns && udns[key].subnets == r.subnets && Satisfied(udns[key].labels, UdnLabels())
  }

  function EnsuredUdn(udns: map<string, Udn>, r: Routing): Udn {
    var key := UdnKey(r.network);
    if key !in udns then Udn(UdnLabels(), r.subnets)
    else if UdnGood(udns, r) then udns[key]
    else Udn(udns[key].labels + UdnLabels(), r.subnets)
  }

  // ------------------------------------------------------------------ the watches

  /** A listing of the routings, in the order the API returned them. */
  ghost predicate Lists(list: seq<string>, routings: map<string, Routing>) {
    && (forall i, j :: 0 <= i < j < |list| ==> list[i] != list[j])
    && (forall a :: a in list <==> a in routings)
  }

  function FirstOn(list: seq<string>, routings: map<string, Routing>, network: string): Option<string> {
    if list == [] then None
    else if list[0] in routings && routings[list[0]].network == network then Some(list[0])
    else FirstOn(list[1..], routings, network)
  }

  /** mapClusterUDNToRouting on one version of the object. */
  function MapUdn(key: string, udn: Option<Udn>, list: seq<string>, routings: map<string, Routing>): set<string> {
    if udn.None? || Value(udn.value.labels, LABEL_MANAGED_BY) != LABEL_MANAGED_BY_VALUE then {}
    else
      var first := FirstOn(list, routings, NetworkOf(key));
      if first.None? then {} else {first.value}
  }

  function At(udns: map<string, Udn>, key: string): Option<Udn> {
    if key in udns then Some(udns[key]) else None
  }

  // ------------------------------------------------------------- one reconcile pass

  /** How creating or updating an object came back. A refusal is the API server's
      validation, and has no effect; another failure may have one. */
  datatype Ensured = EnsureOk | EnsureRefused(text: string) | EnsureFailed(text: string, took: bool)

  /** What the API server answers during one pass. Texts are those of the errors. */
  datatype Answers = Answers(
    readOk: bool, finalizerWrite: WriteOutcome, listOk: bool, list: seq<string>, config: Option<Phase>,
    namespaceError: Option<string>, udn: Ensured, advertisements: Ensured, statusWrite: WriteOutcome,
    udnDelete: WriteOutcome, advertisementsDelete: WriteOutcome, watchList: seq<string>, now: nat)

  datatype Exit =
    | Failed                             // the pass returns an error, which requeues it
    | Duplicate(other: string)
    | ConfigNotReady
    | NamespaceNotReady(text: string)
    | UdnInvalid(text: string)
    | UdnFailed(text: string)
    | AdvertisementsFailed(text: string)
    | Complete

  /** The first listed routing other than a with a's network name. */
  function FirstOther(list: seq<string>, routings: map<string, Routing>, a: string, network: string): Option<string> {
    if list == [] then None
    else if list[0] != a && list[0] in routings && routings[list[0]].network == network then Some(list[0])
    else FirstOther(list[1..], routings, a, network)
  }

  /** Where a pass over a routing that is not being deleted leaves off. */
  function ExitOf(w: World, a: string, ans: Answers): Exit
    requires a in w.routings
  {
    var r := w.routings[a];
    if !r.finalizer && !ans.finalizerWrite.Done? then Failed
    else if !ans.listOk then Failed
    else
      var other := FirstOther(ans.list, w.routings, a, r.network);
      if other.Some? then Duplicate(other.value) else NetworkExit(ans)
  }

  /** Where a pass over a routing alone on its network leaves off. */
  function NetworkExit(ans: Answers): Exit {
    if ans.config != Some(Ready) then ConfigNotReady
    else if ans.namespaceError.Some? then NamespaceNotReady(ans.namespaceError.value)
    else if ans.udn.EnsureRefused? then UdnInvalid(ans.udn.text)
    else if ans.udn.EnsureFailed? then UdnFailed(ans.udn.text)
    else if !ans.advertisements.EnsureOk? then AdvertisementsFailed(ans.advertisements.text)
    else Complete
  }

  function PhaseOf(exit: Exit): Phase {
    match exit
    case Complete => Ready
    case ConfigNotReady => Pending
    case _ => Degraded
  }

  function NetworkOk(network: string): Write {
    Put(NetworkCreated, true, ReasonCreated, SaysUdnEnsured(UdnKey(network)))
  }

  function WritesOf(exit: Exit, network: string): seq<Write> {
    match exit
    case Failed => []
    case ConfigNotReady => []
    case Duplicate(other) => [Put(NetworkCreated, false, ReasonDuplicateNetwork, SaysDuplicate(network, other))]
    case NamespaceNotReady(text) =>
      [Put(NetworkCreated, false, ReasonNamespaceNotReady, SaysNamespaceFailed(text))]
    case UdnInvalid(text) => [Put(NetworkCreated, false, ReasonCUDNSpecInvalid, Says(text))]
    case UdnFailed(text) => [Put(NetworkCreated, false, ReasonCUDNFailed, SaysUdnFailed(text))]
    case AdvertisementsFailed(text) =>
      [NetworkOk(network),
       Put(RouteAdvertisementsCreated, false, ReasonRAFailed, SaysAdvertisingFailed(text))]
    case Complete =>
      [NetworkOk(network), Put(RouteAdvertisementsCreated, true, ReasonCreated, SaysAdvertised)]
  }

  /** The status a pass stores. */
  function StatusAfter(exit: Exit, r: Routing, now: nat): Status {
    if exit == ConfigNotReady then Status(Pending, r.generation, [])
    else
      Status(PhaseOf(exit), r.generation,
             PerformAll(r.status.conditions, WritesOf(exit, r.network), r.generation, now))
  }

  /** Reasons only the user can lift: no request is scheduled for them. */
  predicate Terminal(exit: Exit) {
    exit.Duplicate? || exit.UdnInvalid?
  }

  /** How long until the next pass, in seconds; None means only a watch brings
      one. */
  function RequeueSeconds(exit: Exit): Option<nat> {
    if exit == Failed || Terminal(exit) then None
    else if exit == ConfigNotReady then Some(10)
    else if exit == Complete then Some(300)
    else Some(30)
  }

  /** One pass over request a, taken off the queue. */
  function Pass(w: World, a: string, ans: Answers): World {
    var w0 := w.(queue := w.queue - {a});
    if !ans.readOk then w
    else if a !in w.routings then w0
    else if w.routings[a].deleting then DeletePass(w0, a, ans)
    else LivePass(w0, a, ans)
  }

  function LivePass(w: World, a: string, ans: Answers): World
    requires a in w.routings
  {
    var exit := ExitOf(w, a, ans);
    var claimed := Claimed(w, a, ans);
    if exit == Failed then claimed.(queue := claimed.queue + {a})
    else Stored(Written(claimed, a, exit, ans), a, exit, ans)
  }

  /** Adding the finalizer is an update, which the watch on a's kind reports. */
  function Claimed(w: World, a: string, ans: Answers): World
    requires a in w.routings
  {
    var r := w.routings[a];
    if r.finalizer || !TookEffect(ans.finalizerWrite) then w
    else w.(routings := w.routings[a := r.(finalizer := true)], queue := w.queue + {a})
  }

  predicate EnsureTook(e: Ensured) {
    e.EnsureOk? || (e.EnsureFailed? && e.took)
  }

  /** Whether the pass wrote the network where it had to. */
  predicate UdnTook(exit: Exit, ans: Answers) {
    exit.AdvertisementsFailed? || exit.Complete? || (exit.UdnFailed? && EnsureTook(ans.udn))
  }

  predicate AdvertisementsTook(exit: Exit, ans: Answers) {
    exit.Complete? || (exit.AdvertisementsFailed? && EnsureTook(ans.advertisements))
  }

  /** The network and the shared RouteAdvertisements, as far as the pass got. */
  function Written(w: World, a: string, exit: Exit, ans: Answers): World
    requires a in w.routings
  {
    var key, next := UdnKey(w.routings[a].network), EnsuredUdn(w.udns, w.routings[a]);
    var ensured :=
      if !UdnTook(exit, ans) || At(w.udns, key) == Some(next) then w
      else
        w.(udns := w.udns[key := next],
           queue := w.queue + MapUdn(key, At(w.udns, key), ans.watchList, w.routings)
                    + MapUdn(key, Some(next), ans.watchList, w.routings));
    ensured.(advertised := w.advertised || AdvertisementsTook(exit, ans))
  }

  /** The status, written only where it differs; a write is an update too. */
  function Stored(w: World, a: string, exit: Exit, ans: Answers): World
    requires a in w.routings
  {
    var r := w.routings[a];
    var status := StatusAfter(exit, r, ans.now);
    if status == r.status then Scheduled(w, a, exit)
    else if ans.statusWrite.NotDone? then w.(queue := w.queue + {a})
    else
      var next := w.(routings := w.routings[a := r.(status := status)], queue := w.queue + {a});
      if ans.statusWrite.Done? then Scheduled(next, a, exit) else next
  }

  function Scheduled(w: World, a: string, exit: Exit): World {
    if Terminal(exit) then w else w.(timers := w.timers + {a})
  }

  function DeletePass(w: World, a: string, ans: Answers): World
    requires a in w.routings
  {
    var key := UdnKey(w.routings[a].network);
    if ans.udnDelete.NotDone? then w.(queue := w.queue + {a})
    else
      var removed := w.(udns := w.udns - {key},
                        queue := w.queue + MapUdn(key, At(w.udns, key), ans.watchList, w.routings));
      if !ans.udnDelete.Done? || !ans.listOk then removed.(queue := removed.queue + {a})
      else
        var last := w.routings.Keys == {a};
        var cleaned := removed.(advertised := w.advertised && !(last && TookEffect(ans.advertisementsDelete)));
        if last && !ans.advertisementsDelete.Done? then cleaned.(queue := cleaned.queue + {a})
        else if ans.finalizerWrite.NotDone? then cleaned.(queue := cleaned.queue + {a})
        else Vanished(cleaned, a)
  }

  /** The object is gone: its own kind's watch and the enqueue-all watch fire. */
  function Vanished(w: World, a: string): World {
    var left := w.routings - {a};
    w.(routings := left, queue := w.queue + {a} + left.Keys)
  }

  // --------------------------------------------------------------- everybody else

  datatype Event =
    | Reconciled(a: string, ans: Answers)
    | UserCreates(a: string, network: string, subnets: seq<string>)
    | UserEdits(a: string, network: string, subnets: seq<string>)
    | UserDeletes(a: string, bump: bool)
    | UdnChanges(key: string, next: Option<Udn>, watchList: seq<string>)
    | TimerFires(a: string)
    | Restarts(udns: map<string, Udn>)  // with whatever became of the networks meanwhile

  ghost predicate Enabled(w: World, e: Event) {
    match e
    case Reconciled(a, ans) =>
      a in w.queue && Lists(ans.list, w.routings) && Lists(ans.watchList, w.routings)
    case UserCreates(a, _, _) => a !in w.routings
    case UserEdits(a, _, _) => a in w.routings
    case UserDeletes(a, _) => a in w.routings
    case UdnChanges(_, _, watchList) => Lists(watchList, w.routings)
    case TimerFires(a) => a in w.timers
    case Restarts(_) => true
  }

  function Next(w: World, e: Event): World {
    match e
    case Reconciled(a, ans) => Pass(w, a, ans)
    case UserCreates(a, network, subnets) =>
      var all := w.routings[a := Routing(network, subnets, 1, false, false, Status(NoPhase, 0, []))];
      w.(routings := all, queue := w.queue + all.Keys)
    case UserEdits(a, network, subnets) =>
      if a !in w.routings then w
      else
        var r := w.routings[a];
        if network == r.network && subnets == r.subnets then w
        else
          w.(routings := w.routings[a := r.(network := network, subnets := subnets, generation := r.generation + 1)],
             queue := w.queue + {a} + if network != r.network then w.routings.Keys else {})
    case UserDeletes(a, bump) =>
      if a !in w.routings then w
      else
        var r := w.routings[a];
        if !r.finalizer then Vanished(w, a)
        else
          w.(routings := w.routings[a := r.(deleting := true,
                                            generation := r.generation + if bump && !r.deleting then 1 else 0)],
             queue := w.queue + {a})
    case UdnChanges(key, next, watchList) =>
      w.(udns := if next.Some? then w.udns[key := next.value] else w.udns - {key},
         queue := w.queue + MapUdn(key, At(w.udns, key), watchList, w.routings)
                  + MapUdn(key, next, watchList, w.routings))
    case TimerFires(a) =>
      w.(timers := w.timers - {a}, queue := w.queue + {a})
    case Restarts(udns) =>
      w.(udns := udns, queue := w.routings.Keys, timers := {})
  }
}
