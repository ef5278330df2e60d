/** What the platforms and the controller exchange. */
module PlatformTypes {
  import opened Labels

  datatype RouterNode = RouterNode(name: string, privateIP: string, zone: string, providerID: string)

  datatype Neighbor = Neighbor(address: string, asn: int, multiHop: bool)

  datatype PeerGroup = PeerGroup(key: string, selector: LabelMap, neighbors: seq<Neighbor>, raw: string)
}

/** The BGPCloudConfiguration controller: what one pass makes of the stored
    status, for every way a pass can end. */
module ConfigController {
  import opened Options
  import opened Outcomes
  import opened Text
  import opened Labels
  import opened Conditions
  import opened PlatformTypes

  const SINGLETON_NAME := "cluster"

  /** Five minutes, in seconds. */
  const INVENTORY_GRACE: nat := 300
  const MAX_MESSAGE := 32768

  datatype Platform = AWS | Azure | GCP | Manual

  datatype GroupStatus = GroupStatus(key: string, selector: LabelMap, neighbors: seq<Neighbor>)

  datatype Status = Status(phase: Phase, observed: nat, conditions: seq<Condition>, groups: seq<GroupStatus>)

  /** `target` is what the platform's block names: route servers with their
      region, a router, a hub with a spoke prefix. */
  datatype Config = Config(name: string, generation: nat, deleting: bool, finalizer: bool, platform: Platform,
                           target: set<string>, declaredGroups: nat, status: Status)

  // ------------------------------------------------------------------- router nodes

  datatype Address = Address(internal: bool, address: string)

  /** A Kubernetes node, as far as the controller reads it. */
  datatype Node = Node(name: string, zone: string, providerID: string, addresses: seq<Address>)

  /** The first internal address, or the empty string. */
  function PrivateIP(addresses: seq<Address>): string {
    if addresses == [] then ""
    else if addresses[0].internal then addresses[0].address
    else PrivateIP(addresses[1..])
  }

  function AsRouterNode(n: Node): RouterNode {
    RouterNode(n.name, PrivateIP(n.addresses), n.zone, n.providerID)
  }

  predicate IsComplete(n: RouterNode) {
    n.privateIP != "" && n.zone != "" && n.providerID != ""
  }

  function CompleteNodes(nodes: seq<Node>): seq<RouterNode> {
    if nodes == [] then []
    else
      var n := AsRouterNode(nodes[|nodes| - 1]);
      CompleteNodes(nodes[..|nodes| - 1]) + if IsComplete(n) then [n] else []
  }

  function IncompleteNodes(nodes: seq<Node>): seq<RouterNode> {
    if nodes == [] then []
    else
      var n := AsRouterNode(nodes[|nodes| - 1]);
      IncompleteNodes(nodes[..|nodes| - 1]) + if IsComplete(n) then [] else [n]
  }

  function Missing(n: RouterNode): seq<string> {
    (if n.privateIP == "" then ["IP"] else [])
    + (if n.zone == "" then ["zone"] else [])
    + (if n.providerID == "" then ["providerID"] else [])
  }

  function NodePart(n: RouterNode): string {
    n.name + " (missing " + Join(Missing(n), "/") + ")"
  }

  function IncompleteMessage(incomplete: seq<RouterNode>): string {
    var parts := seq(|incomplete|, i requires 0 <= i < |incomplete| => NodePart(incomplete[i]));
    var message := Itoa(|incomplete|) + " router node(s) incomplete: " + Join(parts, "; ");
    if |message| > MAX_MESSAGE then message[..MAX_MESSAGE] else message
  }

  // ------------------------------------------------------------------ the environment

  datatype FrrAnswer = FrrReady | FrrNotReady | FrrCheckError(text: string)

  datatype BuildAnswer =
    | Built
    | CredentialsPending(text: string)
    | CredentialsInvalid(text: string)
    | BuildError(text: string)

  datatype DiscoveryAnswer =
    | Discovered(groups: seq<PeerGroup>)
    | RouteServerMissing(text: string)
    | DiscoveryError(text: string)

  datatype NodesAnswer = Listed(nodes: seq<Node>) | ListError(text: string)

  /** What the environment answers during one pass, and the two clock readings
      of the pass: when it sets its conditions, and when it looks at their age. */
  datatype Answers = Answers(
    readOk: bool, finalizerWrite: WriteOutcome, patchError: Option<string>, frr: FrrAnswer, build: BuildAnswer,
    discovery: DiscoveryAnswer, applyError: Option<string>, nodes: NodesAnswer, reconcileError: Option<string>,
    routings: Option<seq<string>>, cleanupError: Option<string>, pruneError: Option<string>,
    statusWrite: WriteOutcome, setAt: nat, doneAt: nat)

  // --------------------------------------------------------------- how a pass can end

  datatype Exit =
    | InvalidName(got: string)
    | PatchFailed(text: string)
    | FrrCheckFailed(text: string)
    | WaitingForFrr
    | WaitingForCredentials(text: string)
    | BadCredentials(text: string)
    | PlatformFailed(text: string)
    | NoRouteServer(text: string)
    | DiscoveryFailed(text: string)
    | ApplyFailed(text: string)
    | NodesFailed(text: string)
    | CloudFailed(text: string)
    | Finished

  function ExitOf(name: string, platform: Platform, ans: Answers): Exit {
    if name != SINGLETON_NAME then InvalidName(name)
    else if ans.patchError.Some? then PatchFailed(ans.patchError.value)
    else if ans.frr.FrrCheckError? then FrrCheckFailed(ans.frr.text)
    else if ans.frr.FrrNotReady? then WaitingForFrr
    else if platform != Manual && ans.build.CredentialsPending? then WaitingForCredentials(ans.build.text)
    else if platform != Manual && ans.build.CredentialsInvalid? then BadCredentials(ans.build.text)
    else if platform != Manual && ans.build.BuildError? then PlatformFailed(ans.build.text)
    else if platform != Manual && ans.discovery.RouteServerMissing? then NoRouteServer(ans.discovery.text)
    else if platform != Manual && ans.discovery.DiscoveryError? then DiscoveryFailed(ans.discovery.text)
    else if ans.applyError.Some? then ApplyFailed(ans.applyError.value)
    else if platform != Manual && ans.nodes.ListError? then NodesFailed(ans.nodes.text)
    else if platform != Manual && ans.reconcileError.Some? then CloudFailed(ans.reconcileError.value)
    else Finished
  }

  /** The nodes the pass leaves out of the cloud, when it gets as far as them. */
  function LeftOut(platform: Platform, ans: Answers): seq<RouterNode> {
    if platform == Manual || ans.nodes.ListError? then [] else IncompleteNodes(ans.nodes.nodes)
  }

  function GroupsToStatus(groups: seq<PeerGroup>): seq<GroupStatus> {
    seq(|groups|, i requires 0 <= i < |groups| =>
      GroupStatus(groups[i].key, groups[i].selector, groups[i].neighbors))
  }

  function Capitalise(s: string): string {
    if s == "" then s
    else if 'a' <= s[0] <= 'z' then [(s[0] as int - 'a' as int + 'A' as int) as char] + s[1..]
    else s
  }

  // ------------------------------------------- the conditions each way of ending writes

  const Patched := Put(NetworkOperatorPatched, true, ReasonPatched, SaysPatched)
  const FrrUp := Put(FRRNamespaceReady, true, ReasonFRRReady, SaysFrrRunning)
  const ForgetCloud := [Drop(CloudEndpointsDiscovered), Drop(CloudResourcesReconciled), Drop(CompleteNodeInventory)]

  function Bad(kind: Kind, reason: Reason, message: Message): Write {
    Put(kind, false, reason, message)
  }

  function DiscoveredWrite(groups: seq<PeerGroup>): Write {
    Put(CloudEndpointsDiscovered, true, ReasonDiscovered, SaysDiscovered(|groups|))
  }

  function AppliedWrite(count: nat): Write {
    Put(FRRConfigurationApplied, true, ReasonApplied, SaysApplied(count))
  }

  function InventoryWrite(incomplete: seq<RouterNode>): Write {
    if incomplete == [] then Put(CompleteNodeInventory, true, ReasonComplete, SaysInventoryComplete)
    else Put(CompleteNodeInventory, false, ReasonNodesIncomplete, Says(IncompleteMessage(incomplete)))
  }

  function ReconciledWrite(incomplete: seq<RouterNode>): Write {
    if incomplete == [] then Put(CloudResourcesReconciled, true, ReasonReconciled, SaysReconciled)
    else Put(CloudResourcesReconciled, false, ReasonNodesIncomplete, SaysReconciledPartly)
  }

  /** What is known of the cloud once discovery is behind: nothing on Manual. */
  function CloudWrites(platform: Platform, ans: Answers): seq<Write> {
    if platform == Manual then ForgetCloud
    else if ans.discovery.Discovered? then [DiscoveredWrite(ans.discovery.groups)]
    else []
  }

  function GroupCount(declared: nat, platform: Platform, ans: Answers): nat {
    if platform == Manual then declared
    else if ans.discovery.Discovered? then |ans.discovery.groups|
    else 0
  }

  /** Written once FRR is up and discovery is behind. */
  function PlannedWrites(platform: Platform, ans: Answers): seq<Write> {
    [Patched, FrrUp] + CloudWrites(platform, ans)
  }

  /** Written once the FRR configurations are in place. */
  function AppliedWrites(platform: Platform, declared: nat, ans: Answers): seq<Write> {
    PlannedWrites(platform, ans) + [AppliedWrite(GroupCount(declared, platform, ans))]
  }

  /** Written when the platform could not be built or discovered. */
  function UnreachableWrites(w: Write): seq<Write> {
    [Patched, FrrUp, Drop(CompleteNodeInventory), Drop(CloudResourcesReconciled), w]
  }

  function WritesOf(exit: Exit, platform: Platform, declared: nat, ans: Answers): seq<Write> {
    var planned := PlannedWrites(platform, ans);
    var applied := AppliedWrites(platform, declared, ans);
    var incomplete := LeftOut(platform, ans);
    match exit
    case InvalidName(got) => [Bad(NetworkOperatorPatched, ReasonInvalidName, SaysMustBeNamed(got))]
    case PatchFailed(text) => [Bad(NetworkOperatorPatched, ReasonPatchFailed, SaysPatchFailed(text))]
    case FrrCheckFailed(text) => [Patched, Bad(FRRNamespaceReady, ReasonCheckFailed, SaysFrrCheckFailed(text))]
    case WaitingForFrr => [Patched, Bad(FRRNamespaceReady, ReasonWaitingForFRR, SaysWaitingForFrr)]
    case WaitingForCredentials(text) =>
      UnreachableWrites(Bad(CloudEndpointsDiscovered, ReasonWaitingForCloudCredentials, Says(Capitalise(text))))
    case BadCredentials(text) =>
      UnreachableWrites(Bad(CloudEndpointsDiscovered, ReasonCloudCredentialsInvalid, Says(text)))
    case PlatformFailed(text) =>
      UnreachableWrites(Bad(CloudEndpointsDiscovered, ReasonCloudDiscoveryFailed, SaysBuildFailed(text)))
    case NoRouteServer(text) =>
      UnreachableWrites(Bad(CloudEndpointsDiscovered, ReasonRouteServerNotFound, Says(text)))
    case DiscoveryFailed(text) =>
      UnreachableWrites(Bad(CloudEndpointsDiscovered, ReasonCloudDiscoveryFailed, SaysDiscoveryFailed(text)))
    case ApplyFailed(text) => planned + [Bad(FRRConfigurationApplied, ReasonApplyFailed, SaysApplyFailed(text))]
    case NodesFailed(text) =>
      applied + [Bad(CloudResourcesReconciled, ReasonCloudReconcileFailed, SaysListFailed(text))]
    case CloudFailed(text) =>
      applied + [InventoryWrite(incomplete),
                 Bad(CloudResourcesReconciled, ReasonCloudReconcileFailed, SaysReconcileFailed(text))]
    case Finished =>
      if platform == Manual then applied else applied + [InventoryWrite(incomplete), ReconciledWrite(incomplete)]
  }

  /** Whether a False inventory has outlived its grace at the given time. */
  predicate Expired(conditions: seq<Condition>, now: nat) {
    var c := Lookup(conditions, CompleteNodeInventory);
    c.Some? && !c.value.status && now >= c.value.since + INVENTORY_GRACE
  }

  function PhaseOf(exit: Exit, incomplete: seq<RouterNode>, conditions: seq<Condition>, now: nat): Phase {
    match exit
    case WaitingForFrr => Configuring
    case WaitingForCredentials(_) => Configuring
    case Finished =>
      if incomplete == [] then Ready
      else if Expired(conditions, now) then Degraded
      else Configuring
    case _ => Degraded
  }

  function GroupsAfter(exit: Exit, platform: Platform, ans: Answers, was: seq<GroupStatus>): seq<GroupStatus> {
    if exit.InvalidName? || exit.PatchFailed? || exit.FrrCheckFailed? || exit.WaitingForFrr? then was
    else if platform != Manual && ans.build.Built? && ans.discovery.Discovered? then
      GroupsToStatus(ans.discovery.groups)
    else []
  }

  /** The status a pass over a configuration that is not being deleted arrives at. */
  function StatusAfter(c: Config, ans: Answers): Status {
    var exit := ExitOf(c.name, c.platform, ans);
    var conditions := PerformAll(c.status.conditions, WritesOf(exit, c.platform, c.declaredGroups, ans),
                                 c.generation, ans.setAt);
    if exit.InvalidName? then c.status.(phase := Degraded, conditions := conditions)
    else
      Status(PhaseOf(exit, LeftOut(c.platform, ans), conditions, ans.doneAt), c.generation, conditions,
             GroupsAfter(exit, c.platform, ans, c.status.groups))
  }

  predicate TerminalExit(exit: Exit) {
    exit.InvalidName? || exit.BadCredentials? || exit.NoRouteServer?
  }

  /** Seconds until the next pass; None means only a watch brings one. */
  function RequeueSeconds(exit: Exit, phase: Phase): Option<nat> {
    if TerminalExit(exit) then None
    else if exit.WaitingForFrr? || exit.WaitingForCredentials? then Some(10)
    else if exit == Finished && phase == Ready then Some(300)
    else Some(30)
  }

  // -------------------------------------------------------------------------- deletion

  function BlockedWrite(names: seq<string>): Write {
    Put(DeletionBlocked, true, ReasonRoutingCRsExist, SaysBlocked(|names|, Join(names, ", ")))
  }

  /** The status of a configuration whose deletion waits for the named routings,
      given in order. */
  function BlockedStatus(c: Config, sorted: seq<string>, ans: Answers): Status {
    c.status.(conditions := Perform(c.status.conditions, BlockedWrite(sorted), c.generation, ans.setAt))
  }

  /** Whether the cloud part of a deletion lets it go on: an unreachable cloud
      does, a failed clean-up does not. */
  predicate CleanedUp(platform: Platform, ans: Answers) {
    platform == Manual || !ans.build.Built? || !ans.discovery.Discovered? || ans.cleanupError.None?
  }

  function Stored(c: Config, desired: Status, write: WriteOutcome): Config {
    if TookEffect(write) then c.(status := desired) else c
  }

  /** The configuration one pass leaves in the API server; None once it is gone. */
  function Pass(c: Config, sorted: seq<string>, ans: Answers): Option<Config> {
    if !ans.readOk then Some(c)
    else if c.name != SINGLETON_NAME then Some(Stored(c, StatusAfter(c, ans), ans.statusWrite))
    else if c.deleting then DeletePass(c, sorted, ans)
    else if !c.finalizer && ans.finalizerWrite.NotDone? then Some(c)
    else if !c.finalizer && ans.finalizerWrite.DoneUnreported? then Some(c.(finalizer := true))
    else
      var claimed := c.(finalizer := true);
      Some(Stored(claimed, StatusAfter(claimed, ans), ans.statusWrite))
  }

  function DeletePass(c: Config, sorted: seq<string>, ans: Answers): Option<Config> {
    if ans.routings.None? then Some(c)
    else if ans.routings.value != [] then Some(Stored(c, BlockedStatus(c, sorted, ans), ans.statusWrite))
    else if !CleanedUp(c.platform, ans) || ans.pruneError.Some? || ans.finalizerWrite.NotDone? then Some(c)
    else None
  }
}
