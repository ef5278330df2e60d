/** What the status of a BGPCloudConfiguration reads after a pass, for each thing
    that can go wrong, read off the answers. */
module ConfigVerdicts {
  import opened Options
  import opened Text
  import opened Conditions
  import opened PlatformTypes
  import opened ConfigController
  import opened NodeMessages
  import opened ConfigSafety

  /** The condition is there, with this content, for the present generation. */
  predicate Reads(s: Status, generation: nat, kind: Kind, status: bool, reason: Reason, message: Message) {
    var found := Lookup(s.conditions, kind);
    && found.Some? && found.value.status == status && found.value.reason == reason && found.value.message == message
    && found.value.generation == generation
  }

  predicate Shows(c: Config, ans: Answers, kind: Kind, status: bool, reason: Reason, message: Message) {
    Reads(StatusAfter(c, ans), c.generation, kind, status, reason, message)
  }

  /** The pass ends in this phase, having seen the present spec. The next, unless the
      call fails, is due after so many seconds, or only when something changes. */
  predicate Ends(c: Config, ans: Answers, phase: Phase, seconds: Option<nat>) {
    var s := StatusAfter(c, ans);
    && s.phase == phase && s.observed == c.generation
    && RequeueSeconds(ExitOf(c.name, c.platform, ans), s.phase) == seconds
  }

  lemma WrittenIsShown(c: Config, ans: Answers, w: Write)
    requires w in WritesOf(ExitOf(c.name, c.platform, ans), c.platform, c.declaredGroups, ans)
    ensures w.Put? ==> Shows(c, ans, w.kind, w.status, w.reason, w.message)
    ensures w.Drop? ==> Lookup(StatusAfter(c, ans).conditions, w.kind) == None
  {
    var ws := WritesOf(ExitOf(c.name, c.platform, ans), c.platform, c.declaredGroups, ans);
    NoConditionTwice(c, ans);
    LookupAfterAll(c.status.conditions, ws, c.generation, ans.setAt, w.kind);
    hide WritesOf, ExitOf, Consistent, DistinctKinds, PerformAll, LeftOut, GroupsAfter, PhaseOf;
  }

  lemma FailureEnds(c: Config, ans: Answers)
    requires var exit := ExitOf(c.name, c.platform, ans); !exit.InvalidName? && !exit.Finished?
    ensures var exit := ExitOf(c.name, c.platform, ans);
            var phase := if exit.WaitingForFrr? || exit.WaitingForCredentials? then Configuring else Degraded;
            Ends(c, ans, phase, RequeueSeconds(exit, phase))
  {
    hide ExitOf, WritesOf, PerformAll, LeftOut, GroupsAfter;
  }

  // ----------------------------------------------------------- how far a pass gets

  predicate Patches(c: Config, ans: Answers) {
    c.name == "cluster" && ans.patchError.None?
  }

  predicate HasFrr(c: Config, ans: Answers) {
    Patches(c, ans) && ans.frr.FrrReady?
  }

  predicate Discovers(c: Config, ans: Answers) {
    HasFrr(c, ans) && (c.platform != Manual ==> ans.build.Built? && ans.discovery.Discovered?)
  }

  predicate AppliesPlan(c: Config, ans: Answers) {
    Discovers(c, ans) && ans.applyError.None?
  }

  predicate ListsNodes(c: Config, ans: Answers) {
    AppliesPlan(c, ans) && c.platform != Manual && ans.nodes.Listed?
  }

  // ------------------------------------------------------------------- phase by phase

  /** A configuration of any other name is refused, and what it had seen and shown
      stays. */
  lemma NameVerdict(c: Config, ans: Answers)
    requires c.name != "cluster"
    ensures Shows(c, ans, NetworkOperatorPatched, false, ReasonInvalidName, SaysMustBeNamed(c.name))
    ensures StatusAfter(c, ans).phase == Degraded && StatusAfter(c, ans).observed == c.status.observed
    ensures StatusAfter(c, ans).groups == c.status.groups
    ensures RequeueSeconds(ExitOf(c.name, c.platform, ans), StatusAfter(c, ans).phase) == None
  {
    var w := Bad(NetworkOperatorPatched, ReasonInvalidName, SaysMustBeNamed(c.name));
    assert w in WritesOf(ExitOf(c.name, c.platform, ans), c.platform, c.declaredGroups, ans);
    WrittenIsShown(c, ans, w);
  }

  /** Phase 1. */
  lemma NetworkVerdict(c: Config, ans: Answers)
    requires c.name == "cluster"
    ensures match ans.patchError
            case Some(text) =>
              && Ends(c, ans, Degraded, Some(30))
              && Shows(c, ans, NetworkOperatorPatched, false, ReasonPatchFailed, SaysPatchFailed(text))
            case None => Shows(c, ans, NetworkOperatorPatched, true, ReasonPatched, SaysPatched)
  {
    var exit := ExitOf(c.name, c.platform, ans);
    var w := match ans.patchError
             case Some(text) => Bad(NetworkOperatorPatched, ReasonPatchFailed, SaysPatchFailed(text))
             case None => Patched;
    assert WritesOf(exit, c.platform, c.declaredGroups, ans)[0] == w;
    WrittenIsShown(c, ans, w);
  }

  /** Phase 2. */
  lemma FrrVerdict(c: Config, ans: Answers)
    requires Patches(c, ans)
    ensures match ans.frr
            case FrrCheckError(text) =>
              && Ends(c, ans, Degraded, Some(30))
              && Shows(c, ans, FRRNamespaceReady, false, ReasonCheckFailed, SaysFrrCheckFailed(text))
            case FrrNotReady =>
              && Ends(c, ans, Configuring, Some(10))
              && Shows(c, ans, FRRNamespaceReady, false, ReasonWaitingForFRR, SaysWaitingForFrr)
            case FrrReady => Shows(c, ans, FRRNamespaceReady, true, ReasonFRRReady, SaysFrrRunning)
  {
    var exit := ExitOf(c.name, c.platform, ans);
    var w := match ans.frr
             case FrrCheckError(text) => Bad(FRRNamespaceReady, ReasonCheckFailed, SaysFrrCheckFailed(text))
             case FrrNotReady => Bad(FRRNamespaceReady, ReasonWaitingForFRR, SaysWaitingForFrr)
             case FrrReady => FrrUp;
    if !ans.frr.FrrReady? { FailureEnds(c, ans); }
    hide Shows, Ends;
    assert WritesOf(exit, c.platform, c.declaredGroups, ans)[1] == w;
    WrittenIsShown(c, ans, w);
  }

  /** The text of an error, as a sentence: a small Latin letter at the front becomes the
      capital, which stands 32 places before it; nothing else changes. */
  lemma CapitaliseReads(s: string)
    requires s != ""
    ensures Capitalise(s)[1..] == s[1..]
    ensures var shift := if 'a' <= s[0] <= 'z' then 32 else 0;
            Capitalise(s)[0] as int == s[0] as int - shift
  {}

  /** Phase 3, where there is a cloud: the wait for credentials, and the ways not to
      reach it, each with its reason. */
  lemma CloudVerdict(c: Config, ans: Answers)
    requires HasFrr(c, ans) && c.platform != Manual
    ensures match ans.build
            case CredentialsPending(text) =>
              && Ends(c, ans, Configuring, Some(10))
              && Shows(c, ans, CloudEndpointsDiscovered, false, ReasonWaitingForCloudCredentials,
                       Says(Capitalise(text)))
            case CredentialsInvalid(text) =>
              && Ends(c, ans, Degraded, None)
              && Shows(c, ans, CloudEndpointsDiscovered, false, ReasonCloudCredentialsInvalid, Says(text))
            case BuildError(text) =>
              && Ends(c, ans, Degraded, Some(30))
              && Shows(c, ans, CloudEndpointsDiscovered, false, ReasonCloudDiscoveryFailed, SaysBuildFailed(text))
            case Built =>
              match ans.discovery
              case RouteServerMissing(text) =>
                && Ends(c, ans, Degraded, None)
                && Shows(c, ans, CloudEndpointsDiscovered, false, ReasonRouteServerNotFound, Says(text))
              case DiscoveryError(text) =>
                && Ends(c, ans, Degraded, Some(30))
                && Shows(c, ans, CloudEndpointsDiscovered, false, ReasonCloudDiscoveryFailed, SaysDiscoveryFailed(text))
              case Discovered(groups) =>
                Shows(c, ans, CloudEndpointsDiscovered, true, ReasonDiscovered, SaysDiscovered(|groups|))
  {
    var exit := ExitOf(c.name, c.platform, ans);
    var ws := WritesOf(exit, c.platform, c.declaredGroups, ans);
    hide Shows, Ends, Capitalise, StatusAfter, PerformAll;
    if ans.build.Built? && ans.discovery.Discovered? {
      assert ws[2] == DiscoveredWrite(ans.discovery.groups);
      WrittenIsShown(c, ans, ws[2]);
    } else {
      FailureEnds(c, ans);
      assert ws == UnreachableWrites(ws[4]);
      WrittenIsShown(c, ans, ws[4]);
    }
  }

  /** A cloud that is not reached leaves nothing said of its resources and nodes, and
      no peer groups. */
  lemma UnreachedVerdict(c: Config, ans: Answers)
    requires HasFrr(c, ans) && c.platform != Manual && !(ans.build.Built? && ans.discovery.Discovered?)
    ensures Lookup(StatusAfter(c, ans).conditions, CloudResourcesReconciled) == None
    ensures Lookup(StatusAfter(c, ans).conditions, CompleteNodeInventory) == None
    ensures StatusAfter(c, ans).groups == []
  {
    var ws := WritesOf(ExitOf(c.name, c.platform, ans), c.platform, c.declaredGroups, ans);
    assert ws[2] == Drop(CompleteNodeInventory) && ws[3] == Drop(CloudResourcesReconciled);
    WrittenIsShown(c, ans, ws[2]);
    WrittenIsShown(c, ans, ws[3]);
  }

  /** Phase 4. */
  lemma ApplyVerdict(c: Config, ans: Answers)
    requires Discovers(c, ans)
    ensures match ans.applyError
            case Some(text) =>
              && Ends(c, ans, Degraded, Some(30))
              && Shows(c, ans, FRRConfigurationApplied, false, ReasonApplyFailed, SaysApplyFailed(text))
            case None =>
              var count := if c.platform == Manual then c.declaredGroups else |ans.discovery.groups|;
              Shows(c, ans, FRRConfigurationApplied, true, ReasonApplied, SaysApplied(count))
  {
    var exit := ExitOf(c.name, c.platform, ans);
    var ws := WritesOf(exit, c.platform, c.declaredGroups, ans);
    AppliedInFull(c.platform, c.declaredGroups, ans);
    var k := if c.platform == Manual then 5 else 3;
    assert ws[k].kind == FRRConfigurationApplied;
    WrittenIsShown(c, ans, ws[k]);
  }

  /** Phase 5: listing the nodes. */
  lemma ListVerdict(c: Config, ans: Answers)
    requires AppliesPlan(c, ans) && c.platform != Manual && ans.nodes.ListError?
    ensures Ends(c, ans, Degraded, Some(30))
    ensures Shows(c, ans, CloudResourcesReconciled, false, ReasonCloudReconcileFailed, SaysListFailed(ans.nodes.text))
  {
    var ws := WritesOf(ExitOf(c.name, c.platform, ans), c.platform, c.declaredGroups, ans);
    AppliedInFull(c.platform, c.declaredGroups, ans);
    WrittenIsShown(c, ans, ws[4]);
  }

  /** A node with all that is needed of it: a first internal address that is not
      empty, a zone and a provider ID. */
  ghost predicate Equipped(n: Node) {
    && n.zone != "" && n.providerID != ""
    && exists k :: FirstInternal(n.addresses, k) && n.addresses[k].address != ""
  }

  predicate FirstInternal(addresses: seq<Address>, k: int) {
    0 <= k < |addresses| && addresses[k].internal && forall j :: 0 <= j < k ==> !addresses[j].internal
  }

  lemma {:induction false} PrivateIPReads(addresses: seq<Address>)
    ensures forall k :: FirstInternal(addresses, k) ==> PrivateIP(addresses) == addresses[k].address
    ensures (forall k :: 0 <= k < |addresses| ==> !addresses[k].internal) ==> PrivateIP(addresses) == ""
    ensures PrivateIP(addresses) != "" ==> exists k :: FirstInternal(addresses, k)
  {
    if addresses != [] && !addresses[0].internal {
      var rest := addresses[1..];
      PrivateIPReads(rest);
      forall k | FirstInternal(addresses, k) ensures PrivateIP(addresses) == addresses[k].address {
        assert FirstInternal(rest, k - 1) by { assert forall j :: 0 <= j < k - 1 ==> rest[j] == addresses[j + 1]; }
      }
      if PrivateIP(addresses) != "" {
        var k :| FirstInternal(rest, k);
        assert FirstInternal(addresses, k + 1) by {
          forall j | 0 <= j < k + 1 ensures !addresses[j].internal { assert j > 0 ==> addresses[j] == rest[j - 1]; }
        }
      }
    } else if addresses != [] {
      assert FirstInternal(addresses, 0);
    }
  }

  lemma EquippedIsComplete(n: Node)
    ensures Equipped(n) <==> IsComplete(AsRouterNode(n))
  {
    PrivateIPReads(n.addresses);
    if IsComplete(AsRouterNode(n)) {
      var k :| FirstInternal(n.addresses, k);
      assert n.addresses[k].address != "";
    }
  }

  lemma {:induction false} AllEquipped(nodes: seq<Node>)
    ensures IncompleteNodes(nodes) == [] <==> forall n :: n in nodes ==> Equipped(n)
  {
    if nodes != [] {
      var most, last := nodes[..|nodes| - 1], nodes[|nodes| - 1];
      assert nodes == most + [last];
      AllEquipped(most);
      EquippedIsComplete(last);
      hide Equipped;
    }
  }

  /** What a node that is left out is said to lack. */
  function Lacks(n: RouterNode): string {
    match (n.privateIP == "", n.zone == "", n.providerID == "")
    case (true, false, false) => "IP"
    case (false, true, false) => "zone"
    case (false, false, true) => "providerID"
    case (true, true, false) => "IP/zone"
    case (true, false, true) => "IP/providerID"
    case (false, true, true) => "zone/providerID"
    case (true, true, true) => "IP/zone/providerID"
    case (false, false, false) => ""
  }

  lemma NodePartReads(n: RouterNode)
    ensures NodePart(n) == n.name + " (missing " + Lacks(n) + ")"
  {
    MissingReads(n);
  }

  lemma MissingReads(n: RouterNode)
    ensures Join(Missing(n), "/") == Lacks(n)
  {
    var missing := Missing(n);
    JoinShort(missing);
    Spelled();
    hide Join;
  }

  lemma Spelled()
    ensures "IP" + "/" + "zone" == "IP/zone" && "IP" + "/" + "providerID" == "IP/providerID"
    ensures "zone" + "/" + "providerID" == "zone/providerID"
    ensures "IP" + "/" + "zone" + "/" + "providerID" == "IP/zone/providerID"
  {}

  lemma JoinShort(parts: seq<string>)
    requires |parts| <= 3
    ensures Join(parts, "/") ==
            match |parts|
            case 0 => ""
            case 1 => parts[0]
            case 2 => parts[0] + "/" + parts[1]
            case _ => parts[0] + "/" + parts[1] + "/" + parts[2]
  {
    if |parts| == 3 { JoinShort(parts[1..]); }
  }

  /** The message is that of all the nodes left out, or the first 32768 places of it. */
  lemma MessageReads(incomplete: seq<RouterNode>)
    ensures var message, whole := IncompleteMessage(incomplete), WholeMessage(incomplete);
            && message <= whole && |message| == if |whole| <= 32768 then |whole| else 32768
  {
    assert Parts(incomplete) == seq(|incomplete|, i requires 0 <= i < |incomplete| => NodePart(incomplete[i]));
    hide NodePart, Join, Itoa;
  }

  lemma NodesWrites(c: Config, ans: Answers)
    requires ListsNodes(c, ans)
    ensures var incomplete := IncompleteNodes(ans.nodes.nodes);
            var ws := WritesOf(ExitOf(c.name, c.platform, ans), c.platform, c.declaredGroups, ans);
            && InventoryWrite(incomplete) in ws
            && (ans.reconcileError.Some? ==>
                  Bad(CloudResourcesReconciled, ReasonCloudReconcileFailed,
                      SaysReconcileFailed(ans.reconcileError.value)) in ws)
            && (ans.reconcileError.None? ==> ReconciledWrite(incomplete) in ws)
  {
    var ws := WritesOf(ExitOf(c.name, c.platform, ans), c.platform, c.declaredGroups, ans);
    AppliedInFull(c.platform, c.declaredGroups, ans);
    assert ws[4] in ws && ws[5] in ws;
    hide IncompleteMessage, IncompleteNodes;
  }

  /** Phase 5: the inventory, and the cloud itself. */
  lemma NodesVerdict(c: Config, ans: Answers)
    requires ListsNodes(c, ans)
    ensures var nodes, incomplete := ans.nodes.nodes, IncompleteNodes(ans.nodes.nodes);
            && (if forall n :: n in nodes ==> Equipped(n) then
                  Shows(c, ans, CompleteNodeInventory, true, ReasonComplete, SaysInventoryComplete)
                else
                  Shows(c, ans, CompleteNodeInventory, false, ReasonNodesIncomplete,
                        Says(IncompleteMessage(incomplete))))
            && match ans.reconcileError
               case Some(text) =>
                 && Ends(c, ans, Degraded, Some(30))
                 && Shows(c, ans, CloudResourcesReconciled, false, ReasonCloudReconcileFailed,
                          SaysReconcileFailed(text))
               case None =>
                 if forall n :: n in nodes ==> Equipped(n) then
                   && Ends(c, ans, Ready, Some(300))
                   && Shows(c, ans, CloudResourcesReconciled, true, ReasonReconciled, SaysReconciled)
                 else
                   && (Ends(c, ans, Configuring, Some(30)) || Ends(c, ans, Degraded, Some(30)))
                   && Shows(c, ans, CloudResourcesReconciled, false, ReasonNodesIncomplete, SaysReconciledPartly)
  {
    var incomplete := IncompleteNodes(ans.nodes.nodes);
    AllEquipped(ans.nodes.nodes);
    NodesWrites(c, ans);
    WrittenIsShown(c, ans, InventoryWrite(incomplete));
    NodesEnd(c, ans);
    hide StatusAfter, WritesOf, ExitOf, Equipped, IncompleteNodes, IncompleteMessage, Ends;
    if ans.reconcileError.Some? {
      WrittenIsShown(c, ans, Bad(CloudResourcesReconciled, ReasonCloudReconcileFailed,
                                 SaysReconcileFailed(ans.reconcileError.value)));
    } else {
      WrittenIsShown(c, ans, ReconciledWrite(incomplete));
    }
  }

  lemma NodesEnd(c: Config, ans: Answers)
    requires ListsNodes(c, ans)
    ensures if ans.reconcileError.Some? then Ends(c, ans, Degraded, Some(30))
            else if IncompleteNodes(ans.nodes.nodes) == [] then Ends(c, ans, Ready, Some(300))
            else Ends(c, ans, Configuring, Some(30)) || Ends(c, ans, Degraded, Some(30))
  {
    hide PerformAll, WritesOf, IncompleteNodes, Expired, GroupsAfter;
  }

  /** Which of the two a pass with nodes left out is: Degraded from 300 seconds on since
      the inventory was first incomplete. */
  lemma GraceVerdict(c: Config, ans: Answers)
    requires ListsNodes(c, ans) && ans.reconcileError.None? && !(forall n :: n in ans.nodes.nodes ==> Equipped(n))
    ensures var was := Lookup(c.status.conditions, CompleteNodeInventory);
            var since := if was.Some? && !was.value.status then was.value.since else ans.setAt;
            Ends(c, ans, if ans.doneAt >= since + 300 then Degraded else Configuring, Some(30))
  {
    AllEquipped(ans.nodes.nodes);
    NodesEnd(c, ans);
    WindowVerdict(c, ans);
  }

  /** On Manual nothing is said of any cloud, and applying the plan is all there is. */
  lemma ManualVerdict(c: Config, ans: Answers)
    requires HasFrr(c, ans) && c.platform == Manual
    ensures Lookup(StatusAfter(c, ans).conditions, CloudEndpointsDiscovered) == None
    ensures Lookup(StatusAfter(c, ans).conditions, CloudResourcesReconciled) == None
    ensures Lookup(StatusAfter(c, ans).conditions, CompleteNodeInventory) == None
    ensures StatusAfter(c, ans).groups == []
    ensures ans.applyError.None? ==> Ends(c, ans, Ready, Some(300))
  {
    var ws := WritesOf(ExitOf(c.name, c.platform, ans), c.platform, c.declaredGroups, ans);
    AppliedInFull(c.platform, c.declaredGroups, ans);
    assert ws[2] == ForgetCloud[0] && ws[3] == ForgetCloud[1] && ws[4] == ForgetCloud[2];
    WrittenIsShown(c, ans, ws[2]);
    WrittenIsShown(c, ans, ws[3]);
    WrittenIsShown(c, ans, ws[4]);
  }

  /** The peer groups shown are those discovered, one by one. */
  lemma GroupsVerdict(c: Config, ans: Answers)
    requires Discovers(c, ans) && c.platform != Manual
    ensures var shown, found := StatusAfter(c, ans).groups, ans.discovery.groups;
            && |shown| == |found|
            && forall i :: 0 <= i < |found| ==>
                 && shown[i].key == found[i].key && shown[i].selector == found[i].selector
                 && shown[i].neighbors == found[i].neighbors
  {
    hide PerformAll, WritesOf, PhaseOf;
  }

  // --------------------------------------------------------------------------- deletion

  /** A deletion that waits names, in order, the routings it waits for, and leaves the
      phase alone. */
  lemma BlockedVerdict(c: Config, sorted: seq<string>, ans: Answers)
    ensures var s := BlockedStatus(c, sorted, ans);
            && Reads(s, c.generation, DeletionBlocked, true, ReasonRoutingCRsExist,
                     SaysBlocked(|sorted|, Join(sorted, ", ")))
            && s.phase == c.status.phase && s.observed == c.status.observed && s.groups == c.status.groups
  {
    PerformSettles(c.status.conditions, BlockedWrite(sorted), c.generation, ans.setAt, DeletionBlocked);
  }
}
