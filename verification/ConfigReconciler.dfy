/** The BGPCloudConfiguration controller step by step, over the object it
    changes in place. */
module ConfigReconciler {
  import opened Options
  import opened Outcomes
  import opened Text
  import opened Sorting
  import opened Conditions
  import opened PlatformTypes
  import opened ConfigController

  /** What a reconcile call hands back to its work queue. */
  datatype Result = Result(requeueAfter: Option<nat>, failed: bool)

  // --------------------------------------------------------------- reading the nodes

  method ListRouterNodes(nodes: seq<Node>) returns (complete: seq<RouterNode>, incomplete: seq<RouterNode>)
    ensures complete == CompleteNodes(nodes) && incomplete == IncompleteNodes(nodes)
  {
    complete, incomplete := [], [];
    for i := 0 to |nodes|
      invariant complete == CompleteNodes(nodes[..i]) && incomplete == IncompleteNodes(nodes[..i])
    {
      assert nodes[..i + 1][..i] == nodes[..i];
      var node := nodes[i];
      var privateIP := "";
      for j := 0 to |node.addresses|
        invariant privateIP == "" && PrivateIP(node.addresses) == PrivateIP(node.addresses[j..])
      {
        assert node.addresses[j..][1..] == node.addresses[j + 1..];
        if node.addresses[j].internal {
          privateIP := node.addresses[j].address;
          break;
        }
      }
      var rn := RouterNode(node.name, privateIP, node.zone, node.providerID);
      assert rn == AsRouterNode(node);
      if rn.privateIP == "" || rn.zone == "" || rn.providerID == "" {
        incomplete := incomplete + [rn];
        continue;
      }
      complete := complete + [rn];
    }
    assert nodes[..|nodes|] == nodes;
  }

  method FormatIncompleteNodesMessage(incomplete: seq<RouterNode>) returns (message: string)
    ensures message == IncompleteMessage(incomplete)
  {
    var parts: seq<string> := [];
    for i := 0 to |incomplete|
      invariant parts == seq(i, j requires 0 <= j < i => NodePart(incomplete[j]))
    {
      var n := incomplete[i];
      var missing: seq<string> := [];
      if n.privateIP == "" { missing := missing + ["IP"]; }
      if n.zone == "" { missing := missing + ["zone"]; }
      if n.providerID == "" { missing := missing + ["providerID"]; }
      assert missing == Missing(n);
      parts := parts + [n.name + " (missing " + Join(missing, "/") + ")"];
    }
    message := Itoa(|incomplete|) + " router node(s) incomplete: " + Join(parts, "; ");
    if |message| > MAX_MESSAGE { message := message[..MAX_MESSAGE]; }
  }

  method PeerGroupsToStatus(groups: seq<PeerGroup>) returns (out: seq<GroupStatus>)
    ensures out == GroupsToStatus(groups)
  {
    out := [];
    for i := 0 to |groups|
      invariant out == GroupsToStatus(groups[..i])
    {
      var neighbors: seq<Neighbor> := [];
      for j := 0 to |groups[i].neighbors|
        invariant neighbors == groups[i].neighbors[..j]
      {
        neighbors := neighbors + [groups[i].neighbors[j]];
      }
      assert neighbors == groups[i].neighbors;
      out := out + [GroupStatus(groups[i].key, groups[i].selector, neighbors)];
    }
    assert groups[..|groups|] == groups;
  }

  class Reconciler {
    var config: Config
    var present: bool

    constructor (c: Config)
      ensures config == c && present
    {
      config, present := c, true;
    }

    // ------------------------------------------------------------- writing the status

    /** patchConfigStatus: no write where the status is already the stored one. */
    method PatchConfigStatus(desired: Status, write: WriteOutcome) returns (ok: bool)
      modifies this
      ensures config == Stored(old(config), desired, write) && present == old(present)
      ensures ok <==> desired == old(config).status || write.Done?
    {
      if config.status == desired { return true; }
      if write.NotDone? { return false; }
      config := config.(status := desired);
      return write.Done?;
    }

    method SetDegraded(status: Status, w: Write, ans: Answers) returns (result: Result)
      requires w.Put? && !w.status
      modifies this
      ensures var desired := status.(phase := Degraded,
                                     conditions := Perform(status.conditions, w, old(config).generation, ans.setAt));
              && config == Stored(old(config), desired, ans.statusWrite) && present == old(present)
              && result == if desired != old(config).status && !ans.statusWrite.Done? then Result(None, true)
                           else Result(if IsTerminal(w.reason) then None else Some(30), false)
    {
      var desired := status.(phase := Degraded);
      desired := desired.(conditions :=
        SetCondition(desired.conditions, Condition(w.kind, false, w.reason, w.message, config.generation, 0),
                     ans.setAt));
      var ok := PatchConfigStatus(desired, ans.statusWrite);
      if !ok { return Result(None, true); }
      if IsTerminal(w.reason) { return Result(None, false); }
      return Result(Some(30), false);
    }

    /** A wait: reported as progress, not as a fault. */
    method ReportWaiting(status: Status, w: Write, ans: Answers) returns (result: Result)
      requires w.Put? && !w.status
      modifies this
      ensures var desired := status.(phase := Configuring, observed := old(config).generation,
                                     conditions := Perform(status.conditions, w, old(config).generation, ans.setAt));
              && config == Stored(old(config), desired, ans.statusWrite) && present == old(present)
              && result == if desired != old(config).status && !ans.statusWrite.Done? then Result(None, true)
                           else Result(Some(10), false)
    {
      var desired := status.(phase := Configuring, observed := config.generation);
      desired := desired.(conditions :=
        SetCondition(desired.conditions, Condition(w.kind, false, w.reason, w.message, config.generation, 0),
                     ans.setAt));
      var ok := PatchConfigStatus(desired, ans.statusWrite);
      if !ok { return Result(None, true); }
      return Result(Some(10), false);
    }

    /** One in-place change to the conditions, with the changes so far. */
    method Change(status: Status, ghost ws: seq<Write>, w: Write, ans: Answers)
      returns (next: Status, ghost more: seq<Write>)
      requires status.conditions == PerformAll(config.status.conditions, ws, config.generation, ans.setAt)
      ensures more == ws + [w]
      ensures next == status.(conditions := PerformAll(config.status.conditions, more, config.generation, ans.setAt))
    {
      PerformOneMore(config.status.conditions, ws, w, config.generation, ans.setAt);
      more := ws + [w];
      match w {
        case Put(kind, s, reason, message) =>
          next := status.(conditions := SetCondition(status.conditions,
                                                     Condition(kind, s, reason, message, config.generation, 0),
                                                     ans.setAt));
        case Drop(kind) =>
          next := status.(conditions := RemoveCondition(status.conditions, kind));
      }
    }

    // ---------------------------------------------------------------------- the pass

    /** Ended as the specification says: by this exit, with its status. */
    ghost predicate EndsAs(c: Config, ans: Answers, result: Result)
      reads this
    {
      var desired := StatusAfter(c, ans);
      && config == Stored(c, desired, ans.statusWrite) && present
      && result == if desired != c.status && !ans.statusWrite.Done? then Result(None, true)
                   else Result(RequeueSeconds(ExitOf(c.name, c.platform, ans), desired.phase), false)
    }

    method Reconcile(ans: Answers) returns (result: Result, ghost sorted: seq<string>)
      requires present
      modifies this
      ensures Pass(old(config), sorted, ans) == if present then Some(config) else None
      ensures old(config).deleting && ans.routings.Some? ==>
                SortedBy(sorted, Identity) && multiset(sorted) == multiset(ans.routings.value)
      ensures !ans.readOk ==> result.failed
      ensures ans.readOk && old(config).name != SINGLETON_NAME ==> EndsAs(old(config), ans, result)
      ensures ans.readOk && old(config).name == SINGLETON_NAME && !old(config).deleting ==>
                if old(config).finalizer || ans.finalizerWrite.Done? then
                  EndsAs(old(config).(finalizer := true), ans, result)
                else result.failed && config == old(config).(finalizer := TookEffect(ans.finalizerWrite))
      ensures ans.readOk && old(config).name == SINGLETON_NAME && old(config).deleting ==>
                result == if !present then Result(None, !ans.finalizerWrite.Done?)
                          else if Blocks(old(config), sorted, ans) then Result(Some(10), false)
                          else Result(None, true)
    {
      sorted := [];
      if !ans.readOk {
        if config.deleting && ans.routings.Some? { sorted := SortBy(ans.routings.value, Identity); }
        return Result(None, true), sorted;
      }

      if config.name != SINGLETON_NAME {
        if config.deleting && ans.routings.Some? { sorted := SortBy(ans.routings.value, Identity); }
        ghost var c := config;
        result := SetDegraded(config.status,
                              Put(NetworkOperatorPatched, false, ReasonInvalidName, SaysMustBeNamed(config.name)), ans);
        PerformOneMore(c.status.conditions, [],
                       Put(NetworkOperatorPatched, false, ReasonInvalidName, SaysMustBeNamed(c.name)),
                       c.generation, ans.setAt);
        return;
      }

      if config.deleting {
        result, sorted := ReconcileDelete(ans);
        return;
      }

      if !config.finalizer {
        if ans.finalizerWrite.NotDone? { return Result(None, true), sorted; }
        config := config.(finalizer := true);
        if !ans.finalizerWrite.Done? { return Result(None, true), sorted; }
      }
      result := ReconcileNetwork(ans);
    }

    /** Phase 1: the Network operator. */
    method ReconcileNetwork(ans: Answers) returns (result: Result)
      requires present && config.name == SINGLETON_NAME
      modifies this
      ensures EndsAs(old(config), ans, result)
    {
      var status := config.status;
      ghost var ws: seq<Write> := [];
      status := status.(phase := Configuring);
      status := status.(observed := config.generation);

      if ans.patchError.Some? {
        ghost var c := config;
        var w := Put(NetworkOperatorPatched, false, ReasonPatchFailed, SaysPatchFailed(ans.patchError.value));
        AfterLastWrite(c, ans, status, ws, w);
        result := SetDegraded(status, w, ans);
        return;
      }
      status, ws := Change(status, ws, Put(NetworkOperatorPatched, true, ReasonPatched, SaysPatched), ans);

      result := ReconcileFrr(status, ws, ans);
    }

    /** Phase 2: wait for FRR. */
    method ReconcileFrr(status0: Status, ghost ws0: seq<Write>, ans: Answers) returns (result: Result)
      requires present && config.name == SINGLETON_NAME && ans.patchError.None? && ws0 == [Patched]
      requires status0 == config.status.(phase := Configuring, observed := config.generation,
                                         conditions := PerformAll(config.status.conditions, ws0, config.generation,
                                                                  ans.setAt))
      modifies this
      ensures EndsAs(old(config), ans, result)
    {
      if ans.frr.FrrCheckError? {
        ghost var c := config;
        var w := Put(FRRNamespaceReady, false, ReasonCheckFailed, SaysFrrCheckFailed(ans.frr.text));
        AfterLastWrite(c, ans, status0, ws0, w);
        result := SetDegraded(status0, w, ans);
        return;
      }
      if ans.frr.FrrNotReady? {
        ghost var c := config;
        var w := Put(FRRNamespaceReady, false, ReasonWaitingForFRR, SaysWaitingForFrr);
        AfterLastWrite(c, ans, status0, ws0, w);
        result := ReportWaiting(status0, w, ans);
        return;
      }
      var status, ws := Change(status0, ws0, Put(FRRNamespaceReady, true, ReasonFRRReady, SaysFrrRunning), ans);
      status := status.(groups := []);
      if config.platform == Manual {
        result := ReconcileManual(status, ws, ans);
      } else {
        result := ReconcilePlatform(status, ws, ans);
      }
    }

    ghost predicate InPhase3(status: Status, ws: seq<Write>, ans: Answers)
      reads this
    {
      && present && config.name == SINGLETON_NAME && ans.patchError.None? && ans.frr.FrrReady?
      && ws == [Patched, FrrUp]
      && status == Status(Configuring, config.generation,
                          PerformAll(config.status.conditions, ws, config.generation, ans.setAt), [])
    }

    /** Manual: nothing is known of any cloud. */
    method ReconcileManual(status0: Status, ghost ws0: seq<Write>, ans: Answers) returns (result: Result)
      requires InPhase3(status0, ws0, ans) && config.platform == Manual
      modifies this
      ensures EndsAs(old(config), ans, result)
    {
      hide PerformAll, GroupsToStatus, StatusAfter, PhaseOf;
      ghost var c := config;
      var status, ws := Change(status0, ws0, Drop(CloudEndpointsDiscovered), ans);
      status, ws := Change(status, ws, Drop(CloudResourcesReconciled), ans);
      status, ws := Change(status, ws, Drop(CompleteNodeInventory), ans);
      assert ws == PlannedWrites(c.platform, ans);
      if ans.applyError.Some? {
        result := ReportNotApplied(status, ws, ans);
        return;
      }
      status, ws := Change(status, ws, Put(FRRConfigurationApplied, true, ReasonApplied,
                                           SaysApplied(config.declaredGroups)), ans);
      assert ws == AppliedWrites(c.platform, c.declaredGroups, ans);
      result := CompleteReconcile(status, true, ans);
    }

    /** The end of phase 4 on either path, when it fails. */
    method ReportNotApplied(status: Status, ghost ws: seq<Write>, ans: Answers) returns (result: Result)
      requires present && ExitOf(config.name, config.platform, ans).ApplyFailed?
      requires ws == PlannedWrites(config.platform, ans)
      requires status == Status(Configuring, config.generation,
                                PerformAll(config.status.conditions, ws, config.generation, ans.setAt),
                                GroupsAfter(ExitOf(config.name, config.platform, ans), config.platform, ans,
                                            config.status.groups))
      modifies this
      ensures EndsAs(old(config), ans, result)
    {
      ghost var c := config;
      var w := Put(FRRConfigurationApplied, false, ReasonApplyFailed, SaysApplyFailed(ans.applyError.value));
      AfterLastWrite(c, ans, status, ws, w);
      result := SetDegraded(status, w, ans);
    }

    /** Phase 3: build the platform and discover its endpoints. */
    method ReconcilePlatform(status0: Status, ghost ws0: seq<Write>, ans: Answers) returns (result: Result)
      requires InPhase3(status0, ws0, ans) && config.platform != Manual
      modifies this
      ensures EndsAs(old(config), ans, result)
    {
      if !ans.build.Built? || !ans.discovery.Discovered? {
        result := ReportUnreachable(status0, ws0, ans);
        return;
      }
      ghost var c := config;
      var groups := ans.discovery.groups;
      var reported := PeerGroupsToStatus(groups);
      var status := status0.(groups := reported);
      ghost var ws := ws0;
      status, ws := Change(status, ws, Put(CloudEndpointsDiscovered, true, ReasonDiscovered,
                                           SaysDiscovered(|groups|)), ans);
      assert ws == PlannedWrites(c.platform, ans);

      if ans.applyError.Some? {
        result := ReportNotApplied(status, ws, ans);
        return;
      }
      status, ws := Change(status, ws, Put(FRRConfigurationApplied, true, ReasonApplied, SaysApplied(|groups|)), ans);
      assert ws == AppliedWrites(c.platform, c.declaredGroups, ans);
      result := ReconcileCloud(status, ws, ans);
    }

    /** A platform that could not be built, or whose endpoints could not be
        discovered. */
    method ReportUnreachable(status0: Status, ghost ws0: seq<Write>, ans: Answers) returns (result: Result)
      requires InPhase3(status0, ws0, ans) && config.platform != Manual
      requires !ans.build.Built? || !ans.discovery.Discovered?
      modifies this
      ensures EndsAs(old(config), ans, result)
    {
      hide PerformAll, LeftOut, PlannedWrites, AppliedWrites, GroupsToStatus;
      ghost var c := config;
      var status, ws := Change(status0, ws0, Drop(CompleteNodeInventory), ans);
      status, ws := Change(status, ws, Drop(CloudResourcesReconciled), ans);
      assert ws == [Patched, FrrUp, Drop(CompleteNodeInventory), Drop(CloudResourcesReconciled)];
      if ans.build.CredentialsPending? {
        var w := Put(CloudEndpointsDiscovered, false, ReasonWaitingForCloudCredentials,
                     Says(Capitalise(ans.build.text)));
        assert ws + [w] == UnreachableWrites(w);
        AfterLastWrite(c, ans, status, ws, w);
        result := ReportWaiting(status, w, ans);
        return;
      }
      var reason, message := UnreachableReason(ans);
      var w := Put(CloudEndpointsDiscovered, false, reason, message);
      assert ws + [w] == UnreachableWrites(w);
      AfterLastWrite(c, ans, status, ws, w);
      result := SetDegraded(status, w, ans);
    }

    /** The error's type picks the reason. */
    method UnreachableReason(ans: Answers) returns (reason: Reason, message: Message)
      requires !ans.build.CredentialsPending? && (!ans.build.Built? || !ans.discovery.Discovered?)
      ensures var w := Put(CloudEndpointsDiscovered, false, reason, message);
              match ans.build
              case CredentialsInvalid(text) =>
                w == Bad(CloudEndpointsDiscovered, ReasonCloudCredentialsInvalid, Says(text))
              case BuildError(text) =>
                w == Bad(CloudEndpointsDiscovered, ReasonCloudDiscoveryFailed, SaysBuildFailed(text))
              case CredentialsPending(_) => true
              case Built =>
                match ans.discovery
                case RouteServerMissing(text) =>
                  w == Bad(CloudEndpointsDiscovered, ReasonRouteServerNotFound, Says(text))
                case DiscoveryError(text) =>
                  w == Bad(CloudEndpointsDiscovered, ReasonCloudDiscoveryFailed, SaysDiscoveryFailed(text))
                case Discovered(_) => true
    {
      match ans.build {
        case CredentialsInvalid(text) => return ReasonCloudCredentialsInvalid, Says(text);
        case BuildError(text) => return ReasonCloudDiscoveryFailed, SaysBuildFailed(text);
        case Built =>
          match ans.discovery {
            case RouteServerMissing(text) => return ReasonRouteServerNotFound, Says(text);
            case DiscoveryError(text) => return ReasonCloudDiscoveryFailed, SaysDiscoveryFailed(text);
          }
      }
    }

    /** Phase 5: the router nodes and the cloud. */
    method ReconcileCloud(status0: Status, ghost ws0: seq<Write>, ans: Answers) returns (result: Result)
      requires present && config.name == SINGLETON_NAME && ans.patchError.None? && ans.frr.FrrReady?
      requires config.platform != Manual && ans.build.Built? && ans.discovery.Discovered? && ans.applyError.None?
      requires ws0 == AppliedWrites(config.platform, config.declaredGroups, ans)
      requires status0 == Status(Configuring, config.generation,
                                 PerformAll(config.status.conditions, ws0, config.generation, ans.setAt),
                                 GroupsToStatus(ans.discovery.groups))
      modifies this
      ensures EndsAs(old(config), ans, result)
    {
      ghost var c := config;
      if ans.nodes.ListError? {
        var w := Put(CloudResourcesReconciled, false, ReasonCloudReconcileFailed, SaysListFailed(ans.nodes.text));
        AfterLastWrite(c, ans, status0, ws0, w);
        result := SetDegraded(status0, w, ans);
        return;
      }
      var nodes, incomplete := ListRouterNodes(ans.nodes.nodes);
      result := ReconcileNodes(status0, ws0, incomplete, ans);
    }

    /** The complete nodes go to the cloud; the others are reported. */
    method ReconcileNodes(status0: Status, ghost ws0: seq<Write>, incomplete: seq<RouterNode>, ans: Answers)
      returns (result: Result)
      requires present && config.platform != Manual && incomplete == LeftOut(config.platform, ans)
      requires ExitOf(config.name, config.platform, ans)
               == if ans.reconcileError.Some? then CloudFailed(ans.reconcileError.value) else Finished
      requires ws0 == AppliedWrites(config.platform, config.declaredGroups, ans)
      requires status0 == Status(Configuring, config.generation,
                                 PerformAll(config.status.conditions, ws0, config.generation, ans.setAt),
                                 GroupsAfter(Finished, config.platform, ans, config.status.groups))
      modifies this
      ensures EndsAs(old(config), ans, result)
    {
      hide ExitOf, LeftOut, AppliedWrites, PerformAll, IncompleteMessage;
      ghost var c := config;
      var readyPhase := |incomplete| == 0;
      var inventory := Put(CompleteNodeInventory, true, ReasonComplete, SaysInventoryComplete);
      if !readyPhase {
        var message := FormatIncompleteNodesMessage(incomplete);
        inventory := Put(CompleteNodeInventory, false, ReasonNodesIncomplete, Says(message));
      }
      var status, ws := Change(status0, ws0, inventory, ans);

      if ans.reconcileError.Some? {
        var w := Put(CloudResourcesReconciled, false, ReasonCloudReconcileFailed,
                     SaysReconcileFailed(ans.reconcileError.value));
        assert ws + [w] == ws0 + [inventory, w];
        AfterLastWrite(c, ans, status, ws, w);
        result := SetDegraded(status, w, ans);
        return;
      }
      var reconciled :=
        if readyPhase then Put(CloudResourcesReconciled, true, ReasonReconciled, SaysReconciled)
        else Put(CloudResourcesReconciled, false, ReasonNodesIncomplete, SaysReconciledPartly);
      status, ws := Change(status, ws, reconciled, ans);
      assert ws == ws0 + [inventory, reconciled];
      result := CompleteReconcile(status, readyPhase, ans);
    }

    method CompleteReconcile(status: Status, readyPhase: bool, ans: Answers) returns (result: Result)
      requires present && ExitOf(config.name, config.platform, ans) == Finished
      requires readyPhase <==> LeftOut(config.platform, ans) == []
      requires status == Status(Configuring, config.generation,
                                PerformAll(config.status.conditions,
                                           WritesOf(Finished, config.platform, config.declaredGroups, ans),
                                           config.generation, ans.setAt),
                                GroupsAfter(Finished, config.platform, ans, config.status.groups))
      modifies this
      ensures EndsAs(old(config), ans, result)
    {
      ghost var c := config;
      if !readyPhase {
        var cond := Lookup(status.conditions, CompleteNodeInventory);
        if cond.Some? && !cond.value.status && ans.doneAt >= cond.value.since + INVENTORY_GRACE {
          var w := Put(CompleteNodeInventory, false, ReasonNodesIncomplete, cond.value.message);
          InventoryIsWritten(c, ans);
          SettledIsNoOp(status.conditions, w, c.generation, ans.setAt);
          result := SetDegraded(status, w, ans);
          return;
        }
      }
      var ok := PatchConfigStatus(status.(phase := if readyPhase then Ready else Configuring), ans.statusWrite);
      if !ok { return Result(None, true); }
      if !readyPhase { return Result(Some(30), false); }
      return Result(Some(300), false);
    }

    // ---------------------------------------------------------------------- deletion

    /** The deletion waits for the routings there are, and says so. */
    ghost predicate Blocks(c: Config, sorted: seq<string>, ans: Answers) {
      && ans.routings.Some? && |ans.routings.value| > 0
      && (BlockedStatus(c, sorted, ans) == c.status || ans.statusWrite.Done?)
    }

    method ReconcileDelete(ans: Answers) returns (result: Result, ghost sorted: seq<string>)
      requires present && config.deleting
      modifies this
      ensures DeletePass(old(config), sorted, ans) == if present then Some(config) else None
      ensures ans.routings.Some? ==>
                SortedBy(sorted, Identity) && multiset(sorted) == multiset(ans.routings.value)
      ensures !present ==> result == Result(None, !ans.finalizerWrite.Done?)
      ensures present ==> result == if Blocks(old(config), sorted, ans) then Result(Some(10), false)
                                    else Result(None, true)
    {
      sorted := [];
      if ans.routings.None? { return Result(None, true), sorted; }
      var names := SortBy(ans.routings.value, Identity);
      sorted := names;
      assert |names| == |ans.routings.value| by { PermutationSameElements(names, ans.routings.value); }
      if |ans.routings.value| > 0 {
        var conditions := SetCondition(config.status.conditions,
          Condition(DeletionBlocked, true, ReasonRoutingCRsExist, SaysBlocked(|names|, Join(names, ", ")),
                    config.generation, 0),
          ans.setAt);
        var ok := PatchConfigStatus(config.status.(conditions := conditions), ans.statusWrite);
        if !ok { return Result(None, true), sorted; }
        return Result(Some(10), false), sorted;
      }
      if config.platform != Manual {
        // A cloud that cannot be reached does not hold the deletion up.
        if ans.build.Built? && ans.discovery.Discovered? && ans.cleanupError.Some? {
          return Result(None, true), sorted;
        }
      }
      if ans.pruneError.Some? { return Result(None, true), sorted; }
      if ans.finalizerWrite.NotDone? { return Result(None, true), sorted; }
      // Without its last finalizer the object goes.
      config := config.(finalizer := false);
      present := false;
      return Result(None, !ans.finalizerWrite.Done?), sorted;
    }
  }

  /** The status after the last write of a pass. */
  lemma AfterLastWrite(c: Config, ans: Answers, status: Status, ws: seq<Write>, w: Write)
    requires var exit := ExitOf(c.name, c.platform, ans);
             && !exit.InvalidName?
             && WritesOf(exit, c.platform, c.declaredGroups, ans) == ws + [w]
             && status.conditions == PerformAll(c.status.conditions, ws, c.generation, ans.setAt)
             && status.observed == c.generation
             && status.groups == GroupsAfter(exit, c.platform, ans, c.status.groups)
    ensures var exit := ExitOf(c.name, c.platform, ans);
            var conditions := Perform(status.conditions, w, c.generation, ans.setAt);
            StatusAfter(c, ans) == status.(conditions := conditions,
                                           phase := PhaseOf(exit, LeftOut(c.platform, ans), conditions, ans.doneAt))
  {
    PerformOneMore(c.status.conditions, ws, w, c.generation, ans.setAt);
  }

  lemma InventoryIsWritten(c: Config, ans: Answers)
    requires ExitOf(c.name, c.platform, ans) == Finished && LeftOut(c.platform, ans) != []
    ensures var conditions := PerformAll(c.status.conditions, WritesOf(Finished, c.platform, c.declaredGroups, ans),
                                         c.generation, ans.setAt);
            var found := Lookup(conditions, CompleteNodeInventory);
            && found.Some?
            && Settled(conditions, Put(CompleteNodeInventory, false, ReasonNodesIncomplete, found.value.message),
                       c.generation)
  {
    var ws0 := AppliedWrites(c.platform, c.declaredGroups, ans);
    var i, r := InventoryWrite(LeftOut(c.platform, ans)), ReconciledWrite(LeftOut(c.platform, ans));
    var before := PerformAll(c.status.conditions, ws0, c.generation, ans.setAt);
    PerformOneMore(c.status.conditions, ws0, i, c.generation, ans.setAt);
    PerformOneMore(c.status.conditions, ws0 + [i], r, c.generation, ans.setAt);
    assert ws0 + [i] + [r] == ws0 + [i, r];
    var middle := Perform(before, i, c.generation, ans.setAt);
    PerformSettles(before, i, c.generation, ans.setAt, CompleteNodeInventory);
    PerformSettles(middle, r, c.generation, ans.setAt, CompleteNodeInventory);
  }
}
