# BGP cloud connector: verified model of the desired-state reconcilers

The operator keeps stores it shares with other writers at a desired set: Cloud
Router peers and NCC spokes on GCP, Route Server peers on AWS and Azure,
FRRConfiguration objects in Kubernetes, and the status of its own two kinds of
resource. This project models the loops that do it and proves what they keep,
over every input, every map order, every failure and, where the statement is
about histories, every run.

`dafny verify dfyconfig.toml` checks everything. Methods follow the loops of
the Go source and are proved against functions and predicates; the theorems are
lemmas about those.

| files | what they model |
|---|---|
| `Text`, `Sorting` | Go strings and numbers; `sort.Slice` as any ordered permutation |
| `PeerNames`, `CloudRouter`, `SharedRouter`, `RouterContents` | GCP peer names, the loops over one router's peer array, several clusters on one router, what a peer says field by field |
| `Spokes`, `NccClient` | NCC spokes: chunking, and making the numbered spokes exactly the chunks |
| `AwsPeers`, `AwsEndpoint`, `AwsPass`, `AwsPlatform`, `AwsDiscovery` | AWS Route Server peers: EC2 as a store with its own transitions, one endpoint's turn, whole passes and runs, discovery |
| `AzureNames`, `AzureRouteServer`, `AzurePlatform`, `AzureShared` | Azure peerings: names, the diff-and-apply loop with a possible failure after each write, the ownership filter, several clusters on one Route Server |
| `Labels`, `Json`, `FrrRender`, `FrrContents`, `FrrWriter`, `FrrConfigurations` | the Kubernetes writer: containment of JSON trees, rendering and what it says path by path, create-or-update with retries, pruning |
| `Conditions`, `ConfigController`, `NodeMessages`, `ConfigSafety`, `ConfigVerdicts`, `ConfigDeletion`, `ConfigReconciler` | status conditions and the BGPCloudConfiguration controller: what each failure reads as, down to what its deletion leaves |
| `RoutingController`, `RoutingSafety`, `RoutingQuiet`, `RoutingStrays`, `RoutingVerdicts`, `RoutingReconciler` | the BGPRouting controller with its work queue and watches, the networks it advertises, and what each failure reads as |

How to read it: the SHA-256 digest is a parameter `digest`, of which only
`HexDigest` (eight hexadecimal characters) is known. A failing write is a
nondeterministic early return, before or after its effect, unless it is known
to have been refused (a delete of an EC2 peer that is going, a ClusterUDN the
API does not accept, a version conflict). Ghost results name the choices a map
order or an unstable sort made. A pass is one step, except where a contract
speaks of the points inside it.

## What the proofs brought to light

Each of these is a property that the code meets only under a condition; the
condition is proved, in both directions.

- GCP: when no peer is desired and the router holds nobody else's, the patch
  carries no array at all (`BgpPeers` is `omitempty` in the generated Compute
  client), so a left-over peer stays and every such call of `ReconcilePeers`
  reports a change (`SharedRouter.ReconcileReaches`, `EmptyDesiredIsLost`). It
  takes a router without interfaces; discovery refuses one
  (internal/platform/gcp/gcp.go:64-68), so in the operator they have to vanish between
  the two reads of a pass.
- GCP: calls of separate clusters on one router commute except when one of them
  is such a call and the other decides whether its cluster has a peer there
  (`SharedRouter.StepsCommute`; `OrderMatters` is a router with two peers).
- GCP: a spoke with a desired name on another hub is rewritten there, so the
  configured hub lacks it (`NccClient.HubHolds`); a spoke prefix ending in a dash
  is claimed by the prefix without it, because `strconv.Atoi` reads a sign
  (`Spokes.NumberedExactly`). A node without a self link would have its spoke
  patched on every pass (`NccClient.NextPassQuiet`); the platform never passes
  one, as it takes self links from provider IDs.
- AWS: adoption looks at the address only, so it takes over a live peer that
  another cluster has tagged (`AwsEndpoint.TagLostExactly`,
  `AwsPass.TagLostOverPass`).
- AWS: a successful pass does not leave an endpoint as wanted where a wanted
  address was still held by a deleting peer, or had two holders
  (`AwsEndpoint.ConvergedExactly`, `AwsPass.PassConverges`).
- Azure: a peering name that had to be trimmed is never recognised as the
  cluster's own, so neither a pass nor a clean-up removes it
  (`AzureNames.OwnPeeringRecognised`, `AzurePlatform.LeftBehind`). What others
  write between the two listings of one pass is undone
  (`AzurePlatform.Platform.ReconcileOurPeerings`).
- Azure: separate marks keep clusters apart only while no name is trimmed. What
  is kept of a longer cluster ID can be a shorter one's whole prefix; the two then
  share names, and a pass of one takes the other's peering
  (`AzureShared.ClearExactly`, `AzureNames.NamesMeetExactly`;
  `AzureShared.TrimmedTakesPeering` is such a pair of clusters).
- GCP and Azure: a cluster named like another with `-bgp`, or `-bgp-` and more,
  after it has its peers taken for the other's (`PeerNames.ClaimedExactly`,
  `AzureNames.ClaimedExactly`).
- FRR: the comparison that decides whether to write sees additions and changes
  but not removals. A selector label, multi-hop, BFD or raw directives taken out
  of the plan stay in the object (`FrrRender.UnwrittenExactly`).
- FRR: a conflict retry lays the labels of the earlier read over those of the
  later one, so another writer's newer value is put back to the older
  (`FrrWriter.OverwrittenKept`, `NewerValueReverted`).
- FRR: containment is transitive exactly when no map of the last tree holds a
  null (`Json.TransitiveExactly`); the rendering holds none.
- BGPCloudConfiguration: the message about incomplete nodes names them in
  listing order, and a cached listing has none, so with two or more of them a
  steady state goes on writing its status (`ConfigSafety.ListingOrderShows`,
  `NodeMessages.MessageShowsOrder`).
- BGPCloudConfiguration: a deletion cleans up only what the spec names at that
  moment. Peers and spokes asked for at a platform, route server, router or hub
  that has been edited away since stay, as does everything when the platform is
  Manual, or cannot be built or discovered, and every trimmed Azure peering
  (`ConfigDeletion.WhatGoesLast`, `NothingLeft`; `SwitchStrands` is a run).
- BGPRouting: with three routings on one name, the duplicate reported depends on
  the listing order, and each change of it writes the status and queues the
  routing again (`RoutingQuiet.QuietExactly`).
- BGPRouting: deleting a duplicate deletes the network of the routing that owns
  the name; that one is queued until a pass has dealt with it
  (`RoutingSafety.DeletionTakesNetwork`, `OwnerWaitsForRepair`).
- BGPRouting: renaming a network leaves the old one in the cluster, managed,
  advertised and nobody's, unless another routing has the name; nothing ever
  removes it (`RoutingStrays.StraysExactly`, `StraysAreForGood`; `RenameStrands`
  is a run that ends with the queue empty).

## Model

| member | source | states |
|---|---|---|
| `Sorting.SortBy` | internal/platform/gcp/compute.go:335-337 | some ordered permutation, which is all an unstable sort promises |
| `Sorting.SortedUnique` | internal/platform/gcp/compute.go:335-337 | with distinct keys there is only one, so the unstable sort has a single result |
| `PeerNames.PeerNameFits` | internal/platform/gcp/compute.go:256-266 | for every cluster name, address and interface index of up to 19 digits the name is within 63 characters |
| `PeerNames.PeerNameLimitReached` | internal/platform/gcp/compute.go:210-266 | the bound is tight: a full prefix, an abbreviated address and a 19-digit index meet it exactly |
| `PeerNames.PeerNameIsGceName` | internal/platform/gcp/compute.go:268-287 | whatever the address is made of, the name has only characters GCE accepts, in the right places |
| `RouterContents.PeerNameReads` | internal/platform/gcp/compute.go:210-287 | a name is the cluster ID with `-bgp-`, or its first 25 places and its digest, then the address letter by letter, or its digest where 63 places are not enough, a dash and the index |
| `PeerNames.OwnPeerRecognised` | internal/platform/gcp/compute.go:225-294 | every cluster recognises every name it generates, abbreviated or not |
| `PeerNames.PeerNamesCollide` | internal/platform/gcp/compute.go:249-287 | exactly when two names of one cluster are equal: same index, and both spelled out with addresses differing in case only, or both abbreviated with colliding digests; the two forms never meet |
| `PeerNames.PeerNamesDistinct` | internal/platform/gcp/compute.go:249-266 | names are injective in lowercase address and index unless the digest collides on the two addresses |
| `PeerNames.SeparateMeansNoSharedName` | internal/platform/gcp/compute.go:289-294 | no name at all is claimed by two clusters if and only if neither mark begins the other |
| `PeerNames.ClaimedByMark` | internal/platform/gcp/compute.go:225-294 | whether a short-named cluster claims another's peer does not depend on the peer, only on whether its mark begins the other's |
| `PeerNames.ClaimedExactly` | internal/platform/gcp/compute.go:232-294 | between unabbreviated clusters a peer is claimed if and only if the names are equal or the maker's continues the claimant's with -bgp and then a dash or nothing |
| `PeerNames.AbbreviatedClaimedExactly` | internal/platform/gcp/compute.go:232-247 | two abbreviated clusters are confused if and only if their first 25 characters and their digests both agree |
| `PeerNames.PlainClaimedExactly` | internal/platform/gcp/compute.go:225-294 | an abbreviated cluster claims an unabbreviated one's peer if and only if the maker's prefix is the 25 characters kept of the claimant's and the address is abbreviated to the claimant's digest |
| `CloudRouter.DesiredPeers` | internal/platform/gcp/compute.go:296-317 | the loops produce an ordered permutation of one peer per node and usable interface |
| `CloudRouter.MergePeers` | internal/platform/gcp/compute.go:319-337 | the merged list is an ordered permutation of everyone else's peers, as found, and the desired ones |
| `CloudRouter.BuildPeerSet` | internal/platform/gcp/compute.go:339-371 | the set holds one key per peer, holes skipped; what a key compares is in `RouterContents.ComparedExactly` |
| `CloudRouter.PeerSetEqual` | internal/platform/gcp/compute.go:373-383 | equal sizes and one-way containment decide set equality |
| `CloudRouter.Router.ReconcilePeers` | internal/platform/gcp/compute.go:139-162 | the call is a reconcile step of the peer array, or failed with the array unchanged or the step carried out; a failure never reports a change; what a step leaves, field by field, is in `RouterContents.RouterServes` |
| `CloudRouter.Router.ClearPeers` | internal/platform/gcp/compute.go:164-185 | the call is a clear step of the peer array, or failed with the array unchanged or the step carried out |
| `RouterContents.ComparedExactly` | internal/platform/gcp/compute.go:339-371 | two peers are one to the comparison if and only if name, interface, both addresses, ASN and instance are all equal |
| `RouterContents.DesiredFields` | internal/platform/gcp/compute.go:296-317 | every desired peer has the address and instance of one node and the name and address of one interface, and every node has one on each usable interface |
| `RouterContents.RouterServes` | internal/platform/gcp/compute.go:139-162 | after a finished call whose patch is not lost the cluster's own peers serve each node on each usable interface, with all six fields, and nothing else; a change is reported if and only if that was not so before |
| `SharedRouter.WriteDecision` | internal/platform/gcp/compute.go:145-151 | a pass writes if and only if the cluster's own peers differ from the desired ones, whoever else is on the router |
| `SharedRouter.ReconcileReaches` | internal/platform/gcp/compute.go:139-162 | everyone else's peers are kept exactly; the cluster's own become the desired ones except, and only, when none is desired, nobody else is there and something was left |
| `SharedRouter.EmptyDesiredIsLost` | internal/platform/gcp/compute.go:153-157 | the exception is reachable: a left-over peer with a topology without interfaces is reported as changed and never removed |
| `SharedRouter.SecondPassIsQuiet` | internal/platform/gcp/compute.go:145-151 | a second pass changes nothing, and reports no change but in that exception |
| `SharedRouter.CallIsStep` | internal/platform/gcp/compute.go:139-162 | every call of ReconcilePeers, on whatever nodes and interfaces, is a step of the runs the following rows are about |
| `SharedRouter.ClearReaches` | internal/platform/gcp/compute.go:164-185 | after clearing, none of the cluster's peers is left and all others are |
| `SharedRouter.UnclaimedPeersKept` | internal/platform/gcp/compute.go:319-333 | over any run of calls by any clusters, a peer none of them claims is still there, as often as at the start |
| `SharedRouter.OthersStepsKeepSlice` | internal/platform/gcp/compute.go:289-333 | over any run of calls by clusters separate from it, a cluster's own peers stay what they were |
| `SharedRouter.LastCallDecides` | internal/platform/gcp/compute.go:139-185 | at the end of any run of separate clusters' calls each cluster's slice is empty if its own last call was a clear, and after a reconcile it is what that call desired if and only if the call desired a peer, somebody else had one, or nothing was left over |
| `SharedRouter.StepOutcome` | internal/platform/gcp/compute.go:139-185 | the whole outcome of any call, that of a reconcile desiring no peer included, from the cluster's own peers before it and whether anybody else has one |
| `SharedRouter.StepsCommute` | internal/platform/gcp/compute.go:139-185 | calls of two separate clusters leave the same peers in either order (and, with unique names, the same list) if and only if neither upsets the other: one upsets a reconcile that desires nothing and has something to remove, on a router with no third party, by giving its own cluster a first peer there or taking its last |
| `SharedRouter.LostExactly` | internal/platform/gcp/compute.go:153-157 | another cluster's call decides whether a reconcile's patch is lost exactly when it upsets it so |
| `SharedRouter.OrderMatters` | internal/platform/gcp/compute.go:139-185 | two peers, one cluster desiring none and the other leaving: in one order both peers go, in the other the first one's stays |
| `SharedRouter.AllPeersDistinct` | internal/platform/gcp/compute.go:256-315 | distinct lowercase addresses without a digest collision get distinctly named peers |
| `SharedRouter.DesiredCanonical` | internal/platform/gcp/compute.go:296-317 | any permutation of the nodes gives the identical list, although the sort is unstable |
| `SharedRouter.RemovingANode` | internal/platform/gcp/compute.go:249-317 | a node leaving takes exactly its own peers off the list; every other entry stays, name and all |
| `SharedRouter.DesiredLength` | internal/platform/gcp/compute.go:298-314 | the length is the nodes times the smaller of interface names and interface addresses |
| `Spokes.ChunkRouterNodes` | internal/platform/gcp/spokes.go:13-29 | the chunks hold 1 to max nodes, all but the last are full, and together they are the sorted nodes; a size of 0 or less counts as 1 |
| `Spokes.ChunkCount` | internal/platform/gcp/spokes.go:20-28 | the number of chunks is the number of nodes over the size, rounded up |
| `Spokes.ChunksUnique` | internal/platform/gcp/spokes.go:13-29 | there is only one such way to cut a list |
| `Spokes.ChunksCanonical` | internal/platform/gcp/spokes.go:18-19 | with distinct names the chunks do not depend on the order the nodes come in |
| `Spokes.EachNodeOnce` | internal/platform/gcp/spokes.go:13-29 | with distinct names each node is in exactly one chunk |
| `Spokes.NodeMapPermutation` | internal/platform/gcp/ncc.go:109-113 | with distinct self links the comparison does not depend on the order of instances or nodes |
| `Spokes.WrittenMatches` | internal/platform/gcp/ncc.go:94-114 | what a write leaves is matched by the next pass if and only if every node of the spoke has a self link |
| `Spokes.NumberedExactly` | internal/platform/gcp/ncc.go:208-214 | a numbered spoke is listed for its own prefix and, if that ends in a dash, for the prefix one dash shorter, and for no other |
| `Spokes.HubPathReads` | internal/platform/gcp/ncc.go:44-49 | a short hub name becomes `projects/P/locations/global/hubs/NAME`, a full path stays, and so does the result |
| `NccClient.Client.SpokeMatches` | internal/platform/gcp/ncc.go:85-114 | true if and only if site-to-site and the machine-to-address maps agree, an unlinked spoke reading as an empty one |
| `NccClient.Client.ApplianceInstances` | internal/platform/gcp/ncc.go:138-149 | sorted by name, one per node; read back, they are the nodes' map, but for a node without a self link, and of nodes sharing one the last |
| `NccClient.Client.ReconcileSpoke` | internal/platform/gcp/ncc.go:51-136 | the spoke holds what is wanted, its hub only chosen on creation; no other spoke changes; nothing is sent when it matches already; a failure leaves the old or the new |
| `NccClient.Client.DeleteSpoke` | internal/platform/gcp/ncc.go:174-187 | only that spoke goes, and true is returned if and only if it was there |
| `NccClient.Client.ListSpokesByPrefix` | internal/platform/gcp/ncc.go:189-223 | lists exactly the spokes of the hub named prefix, dash, integer, in any page order |
| `NccClient.Client.ReconcileDesired` | internal/platform/gcp/spokes.go:41-50 | the numbered spokes are reconciled one after the other; a failure leaves each old or new |
| `NccClient.Client.DeleteStale` | internal/platform/gcp/spokes.go:55-66 | exactly the listed spokes that are not desired go, in listing order |
| `NccClient.Client.ReconcileNCCSpokes` | internal/platform/gcp/spokes.go:31-68 | success leaves exactly the desired spokes reconciled, the undesired listed ones gone, all others untouched; any failure leaves each spoke old or new; changes counts the writes that succeeded; nothing is sent when all is in place |
| `NccClient.Client.ReleaseSpokes` | internal/platform/gcp/gcp.go:178-188 | success leaves none of the listed spokes and all others; a failure has only removed listed ones |
| `NccClient.HubHolds` | internal/platform/gcp/spokes.go:31-68 | after success the hub lists exactly prefix-0 to prefix-(k-1) if and only if no spoke of such a name was on another hub |
| `NccClient.NextPassQuiet` | internal/platform/gcp/ncc.go:85-114 | with distinct self links, after success there is nothing left to do if and only if every node has one |
| `NccClient.SpokeHoldsItsChunk` | internal/platform/gcp/spokes.go:31-50 | with distinct self links the number of spokes is the nodes over 8 rounded up, and spoke i holds exactly the nodes of chunk i at their addresses |
| `NccClient.SpokeLists` | internal/platform/gcp/ncc.go:116-149 | the spoke numbered i links exactly the self links of its chunk, each at its node's address, with the site-to-site setting asked for |
| `Ec2Api.Ec2.DeletePeer` | internal/platform/aws/route_server.go:226-254 | EC2 refuses a delete on a peer that is deleting or deleted; any other is left deleting, or the call fails with or without that effect |
| `Ec2Api.Ec2.CreateTags` | internal/platform/aws/route_server.go:189-199 | one peer gains the cluster's tag, or the call fails with or without that effect |
| `Ec2Api.Ec2.CreatePeer` | internal/platform/aws/route_server.go:201-224 | one fresh peer is added, or the call fails with or without that effect; its endpoint, address, tag, ASN and liveness are in `AwsEndpoint.NewPeersMade` |
| `AwsPeers.TagReads` | internal/platform/aws/route_server.go:180-187 | a peer is managed by a cluster if and only if its `managed-by` tag is `bgp-cloud-connector/` and the cluster |
| `AwsEndpoint.NewPeersMade` | internal/platform/aws/route_server.go:201-224 | at any point of a turn every peer it created is on the endpoint at a wanted address, with the ASN, liveness detection and tag asked for |
| `AwsPlatform.Platform.ListAllPeers` | internal/platform/aws/route_server.go:156-178 | exactly the peers of the endpoint, in listing order |
| `AwsPlatform.Platform.ListManagedPeers` | internal/platform/aws/route_server.go:140-187 | exactly the peers of the endpoint with the tag, in listing order |
| `AwsPlatform.Platform.IndexManaged` | internal/platform/aws/route_server.go:35-50 | the loop builds the two indices of managed peers: who holds an address, and which holders are deleting |
| `AwsPlatform.Platform.IndexAdoptable` | internal/platform/aws/route_server.go:66-81 | the loop builds the index of adoptable peers |
| `AwsPlatform.HeldBy` | internal/platform/aws/route_server.go:35-60 | the two indices together say who holds an address and whether it is going |
| `AwsEndpoint.ManagedMapIs` | internal/platform/aws/route_server.go:35-50 | the index of held addresses names the last undeleted managed peer of each |
| `AwsEndpoint.AdoptMapIs` | internal/platform/aws/route_server.go:66-81 | the index of adoptable peers names the last live one of each address nobody holds |
| `AwsPlatform.Platform.Prune` | internal/platform/aws/route_server.go:52-60 | one held address: its holder is deleted unless it is wanted or going already |
| `AwsPlatform.Platform.DeleteStale` | internal/platform/aws/route_server.go:52-60 | in any order, exactly the unwanted holders not already going are deleted; no delete is refused |
| `AwsPlatform.Platform.Provide` | internal/platform/aws/route_server.go:83-98 | one wanted address: kept, adopted, or created only where nobody can be adopted |
| `AwsPlatform.Platform.FillIn` | internal/platform/aws/route_server.go:83-98 | in any order, each wanted address nobody holds gets an adopted peer, or a created one only where none can be adopted |
| `AwsPlatform.Platform.ReconcileEndpoint` | internal/platform/aws/route_server.go:29-99 | one endpoint's turn, broken off anywhere: each peer is as before or as treated, no refused or unsafe call, no call at all on an endpoint with nothing to do, and every peer beyond the old list is on this endpoint at a wanted address with the platform's ASN, its liveness detection and this cluster's tag |
| `AwsEndpoint.ProgressKeepsNoRivals` | internal/platform/aws/route_server.go:26-100 | a turn never gives an address of an endpoint a second undeleted managed peer |
| `AwsEndpoint.ConvergedExactly` | internal/platform/aws/route_server.go:26-100 | a finished turn leaves one live managed peer per wanted address and no other live managed peer if and only if it began without rivals on the endpoint and without a wanted address held by a deleting peer |
| `AwsEndpoint.ConvergedReads` | internal/platform/aws/route_server.go:26-100 | on a converged endpoint every wanted address has a live tagged peer, and every live tagged peer has a wanted address, states and tag spelled out |
| `AwsEndpoint.ConvergedIsQuiet` | internal/platform/aws/route_server.go:52-98 | on a converged endpoint there is nothing to delete, tag or create |
| `AwsEndpoint.OtherEndpointKept` | internal/platform/aws/route_server.go:26-100 | another endpoint is as wanted, or about to be, after a turn if and only if it was before |
| `AwsEndpoint.TagLostExactly` | internal/platform/aws/route_server.go:62-98 | over a finished turn a peer loses another cluster's tag if and only if it is live, has a wanted address no undeleted managed peer has, and is the last listed of such |
| `AwsPass.PassKeepsNoRivals` | internal/platform/aws/route_server.go:26-100 | at most one undeleted managed peer per endpoint and address is kept by every pass, finished or broken off |
| `AwsPass.PassFrame` | internal/platform/aws/route_server.go:26-100 | a pass keeps every peer's place and identity, and never changes one without the tag whose address is not wanted on its endpoint |
| `AwsPass.TagLostOverPass` | internal/platform/aws/route_server.go:26-100 | over a complete pass, however many turns, a peer loses another cluster's tag if and only if one of the turns, judged by the list the pass began with, takes it over |
| `AwsPass.PassConverges` | internal/platform/aws/route_server.go:26-100 | endpoint by endpoint: a complete pass over distinct endpoints leaves one as wanted if and only if there were no rivals on it and no wanted address held by a deleting peer when the pass began |
| `AwsPass.PassMakes` | internal/platform/aws/route_server.go:26-100 | over a whole pass every peer beyond the old list was made so by one of its turns, whatever the others did |
| `AwsPass.QuietTurn` | internal/platform/aws/route_server.go:26-100 | a turn on an endpoint as wanted changes nothing |
| `AwsPass.GaugeWhenConverged` | internal/platform/aws/route_server.go:110-138 | after convergence the count is the sum over endpoints of the distinct addresses wanted in their zone |
| `AwsPass.NeverTwoHolders` | internal/platform/aws/route_server.go:26-100 | over every run of passes, clean-ups and EC2's own transitions no address of an endpoint gets a second holder |
| `AwsPass.ConvergesAfterRun` | internal/platform/aws/route_server.go:26-100 | after any such run a complete pass leaves an endpoint as wanted if and only if none of its wanted addresses is held by a deleting peer |
| `AwsPlatform.Platform.GroupByZone` | internal/platform/aws/route_server.go:18-24 | the loop groups exactly the addresses of each zone |
| `AwsPlatform.Platform.TakeTurn` | internal/platform/aws/route_server.go:29-99 | an endpoint's turn extends the pass by one stage, and does nothing where all is settled |
| `AwsPlatform.Platform.ReconcileZone` | internal/platform/aws/route_server.go:26-100 | a zone's endpoints get their turns in order; a failure leaves a beginning of them |
| `AwsPlatform.Platform.ReconcileZones` | internal/platform/aws/route_server.go:26-100 | in whatever order the map gives the zones, the pass is one turn per endpoint, all calls are safe, and settled endpoints get none |
| `AwsPlatform.Platform.CountManagedPeers` | internal/platform/aws/route_server.go:118-138 | the number read back is the count over every endpoint of every zone, in any order |
| `AwsPlatform.Platform.CountZone` | internal/platform/aws/route_server.go:120-136 | the peers of one zone's endpoints are added to the count |
| `AwsPlatform.Platform.CountPeers` | internal/platform/aws/route_server.go:127-134 | of a listing, the undeleted peers at a wanted address |
| `AwsPlatform.Platform.ReconcileRouteServerPeers` | internal/platform/aws/route_server.go:15-108 | the pass and the gauge read back after it, with every call safe and no delete refused |
| `AwsPlatform.Platform.ReconcileNodes` | internal/platform/aws/aws.go:105-129 | no nodes changes nothing; rivals are never introduced; finished or broken off, every peer beyond the old list is on an endpoint of the zone of a node, at its address, with the platform's ASN, its liveness detection and this cluster's tag; a successful pass over well-zoned endpoints settles them all if and only if there were no rivals and no wanted address was held by a deleting peer, then sets the gauge to endpoints times distinct addresses, and makes the next one silent |
| `AwsPlatform.Platform.SettledReads` | internal/platform/aws/aws.go:105-129 | once settled, each endpoint of a zone has a live tagged peer for every node of the zone and none for any other address |
| `AwsPlatform.Platform.WantsAreDistinct` | internal/platform/aws/discovery.go:50-72 | endpoints put in one zone each are asked for once by a pass |
| `AwsPlatform.Platform.CleanEndpoint` | internal/platform/aws/route_server.go:256-272 | every live managed peer of the endpoint that can be named is deleted, no going or gone one is, nothing else changes |
| `AwsPlatform.Platform.CleanPeer` | internal/platform/aws/route_server.go:263-270 | one listed peer: deleted unless it cannot be named or is going or gone |
| `AwsPlatform.Platform.DeleteAllManagedPeers` | internal/platform/aws/route_server.go:256-275 | over all endpoints in any order none of the cluster's live peers is left, nothing else changes, no delete is refused |
| `AwsDiscovery.PeerGroupsByAZ` | internal/platform/aws/discovery.go:77-98 | one group per zone with its neighbours, zones strictly ascending |
| `AwsDiscovery.GroupsCanonical` | internal/platform/aws/discovery.go:77-98 | whatever order the map is walked in, the groups come out the same |
| `AwsDiscovery.ListEndpoints` | internal/platform/aws/discovery.go:117-139 | the endpoints of one route server, in listing order |
| `AwsDiscovery.AddEndpoints` | internal/platform/aws/discovery.go:50-66 | each endpoint is appended to its zone, and the first without a zone stops the loop |
| `AwsDiscovery.DiscoverEndpoints` | internal/platform/aws/discovery.go:16-75 | success means every server is known and every endpoint has a zone, with endpoints and neighbours sorted into zones alike; each failure names its cause |
| `AwsDiscovery.DiscoveryIsWellZoned` | internal/platform/aws/discovery.go:50-72 | endpoints with distinct identifiers end up in one zone each, once |
| `AwsDiscovery.DiscoveryReads` | internal/platform/aws/discovery.go:16-98 | every endpoint of a configured server is listed under its subnet's zone, and is a neighbour, by its address and its server's ASN, in a group selecting the nodes of that zone |
| `AwsDiscovery.DiscoveryOnly` | internal/platform/aws/discovery.go:16-98 | every neighbour of a group is such an endpoint of that zone |
| `AzureNames.PeeringNameFits` | internal/platform/azure/azure.go:66-77 | a peering name is within 80 characters |
| `AzureNames.PeeringNameReads` | internal/platform/azure/azure.go:59-77 | a name ends in a dash and the address with dashes for dots, after as much of the cluster ID with `-bgp` as 80 places leave room for |
| `AzureNames.OwnPeeringRecognised` | internal/platform/azure/azure.go:59-84 | a cluster recognises the name it makes if and only if cluster ID and address together have at most 75 characters |
| `AzureNames.PeeringNamesDistinct` | internal/platform/azure/azure.go:66-77 | names of addresses, IPv4 or IPv6, are equal if and only if the addresses are, trimmed or not |
| `AzureNames.ClaimedByKept` | internal/platform/azure/azure.go:59-84 | trimmed or not, a peering is claimed by a cluster if and only if its mark begins what is kept of the maker's prefix and the dash after it, whatever the address |
| `AzureNames.ClaimedExactly` | internal/platform/azure/azure.go:59-84 | an untrimmed peering is claimed by a cluster if and only if the IDs are equal or the maker's continues the claimant's with -bgp and then a dash or nothing |
| `AzureNames.SeparateMeansNoSharedName` | internal/platform/azure/azure.go:79-84 | no name at all is claimed by two clusters if and only if neither mark begins the other |
| `AzureNames.NamesMeetExactly` | internal/platform/azure/azure.go:59-77 | two clusters give peerings one name if and only if the addresses are equal and the same is kept of their prefixes; untrimmed, that is one cluster |
| `AzureRouteServer.RouteServer.ListPeers` | internal/platform/azure/routeserver.go:90-127 | every connection once, ordered by name |
| `AzureRouteServer.RouteServer.CreateOrUpdate` | internal/platform/azure/routeserver.go:205-231 | one name gets the connection, or the call fails with or without that effect |
| `AzureRouteServer.RouteServer.Delete` | internal/platform/azure/routeserver.go:233-249 | one name goes, or the call fails with or without that effect |
| `AzureRouteServer.SameSet` | internal/platform/azure/routeserver.go:141-143 | when the two sets agree the store is what is wanted, whichever of several entries of a name counts |
| `AzureRouteServer.BuildPeerSet` | internal/platform/azure/routeserver.go:260-274 | the set of exactly the listed peers |
| `AzureRouteServer.PeerSetEqual` | internal/platform/azure/routeserver.go:276-286 | equal sizes and one-way containment decide set equality |
| `AzureRouteServer.FindCurrent` | internal/platform/azure/routeserver.go:251-258 | finds the named peer if and only if there is one |
| `AzureRouteServer.ByName` | internal/platform/azure/routeserver.go:152-155 | each name gets one of the connections desired of it |
| `AzureRouteServer.RouteServer.WriteWanted` | internal/platform/azure/routeserver.go:157-166 | in any order, all wanted names end as wanted; broken off, each is old or wanted and nothing has been deleted |
| `AzureRouteServer.RouteServer.DeleteUnwanted` | internal/platform/azure/routeserver.go:168-176 | deletes follow all creates and updates and leave exactly the wanted store |
| `AzureRouteServer.RouteServer.ReconcilePeers` | internal/platform/azure/routeserver.go:129-179 | after every write, failed or not, each name is old or wanted and no unwanted one goes before all wanted ones are in place; success means the store is as wanted; changed if and only if a write succeeded; nothing is written when it was so before |
| `AzureRouteServer.WantedNeverDisappears` | internal/platform/azure/routeserver.go:157-176 | a name there and wanted is there at every point, and never changes if it was as wanted |
| `AzurePlatform.NodesWant` | internal/platform/azure/azure.go:109-116 | the desired list asks for exactly one peering per node, whatever entry of a name counts |
| `AzurePlatform.Platform.DesiredPeers` | internal/platform/azure/azure.go:109-116 | the loop asks for one peering per node, in order |
| `AzurePlatform.Platform.AppendForeign` | internal/platform/azure/azure.go:145-149 | the list is the desired peerings and everything listed that is not ours |
| `AzurePlatform.TrimmedNotOwned` | internal/platform/azure/azure.go:66-84 | our peerings can be exactly the nodes' only if no name was trimmed |
| `AzurePlatform.Platform.ReconcileOurPeerings` | internal/platform/azure/azure.go:134-155 | on success our names are the desired ones, and with recognised names everyone else's are what the first listing saw; at every point, trimmed or not, failed or not, a name neither ours nor asked for is as first listed or as others left it between the listings |
| `AzurePlatform.Platform.CountManagedPeers` | internal/platform/azure/azure.go:157-181 | the number of our peerings at a node's address |
| `AzurePlatform.GaugeExact` | internal/platform/azure/azure.go:157-181 | when our peerings are the nodes' the count is the number of distinct addresses |
| `AzurePlatform.Platform.ReconcileNodes` | internal/platform/azure/azure.go:86-132 | no nodes changes nothing; success makes our names exactly what is asked for, leaves a trimmed one asked for with either connection and all others as first listed; at every point a name neither ours nor asked for is as first listed or as others left it meanwhile; ours are exactly the nodes' if and only if no name was trimmed, and of the peerings made for addresses without a node exactly the trimmed ones stay; untrimmed, the gauge is the distinct addresses, and undisturbed nobody else's peering is touched and a pass with nothing to do writes nothing |
| `AzurePlatform.Platform.Cleanup` | internal/platform/azure/azure.go:183-204 | for all names: success leaves exactly the peerings not ours as first listed, so of those we made the trimmed ones, and a gauge of 0; undisturbed, they are untouched throughout |
| `AzurePlatform.LeftBehind` | internal/platform/azure/azure.go:134-155 | what a pass or clean-up ends with has the peering the cluster made for an address not desired if and only if it was there before and its name was trimmed |
| `AzureShared.CallIsStep` | internal/platform/azure/azure.go:86-132 | what an undisturbed pass promises, failed or not, trimmed or not, makes it a step of the runs of the following rows |
| `AzureShared.UnclaimedKept` | internal/platform/azure/azure.go:134-155 | over any run of undisturbed passes and clean-ups by any clusters, trimmed names included, a peering that none of them claims or asks for stays as it is |
| `AzureShared.OwnKept` | internal/platform/azure/azure.go:79-155 | over any run of undisturbed calls, broken off or not, by clusters with a separate mark that ask for no name the cluster claims, its own peerings stay what they were |
| `AzureShared.ClearByKept` | internal/platform/azure/azure.go:59-116 | in terms of the nodes: it asks for none exactly when the mark begins nothing that is kept of the caller's prefix, and the dash after it |
| `AzureShared.ClearExactly` | internal/platform/azure/azure.go:79-155 | a call changes no peering of a cluster, on any Route Server, if and only if the marks are separate and it asks for no name that cluster claims |
| `AzureShared.LastCallDecides` | internal/platform/azure/azure.go:86-204 | at the end of any run each cluster's own names are what its last finished call asked for, if later calls keep clear of it in this sense; a trimmed name it asked for is there if none of them touches it |
| `AzureShared.StepsCommute` | internal/platform/azure/azure.go:86-204 | finished undisturbed calls of two clusters that keep clear of each other, ask for different names and find none of them there unrecognised with another connection leave the same store in either order |
| `AzureShared.OwnNamesCommute` | internal/platform/azure/azure.go:66-84 | calls of separate clusters all of whose names are recognised meet those conditions on every store |
| `AzureShared.TrimmedTakesPeering` | internal/platform/azure/azure.go:66-84 | two clusters with separate marks, one of them trimmed, that share a name: a pass of that one takes the other's peering |
| `Labels.LabelsSatisfied` | internal/controller/frr.go:319-327 | true if and only if every desired label reads as its value, a missing one reading as empty |
| `Labels.MergeLabels` | internal/controller/frr.go:234-243 | the overlay wins and no key is lost, in any map order |
| `Json.Reflexive` | internal/controller/frr.go:290-317 | every tree satisfies itself |
| `Json.TransitiveExactly` | internal/controller/frr.go:290-317 | chains of satisfaction collapse, for all trees, if and only if no map of the last tree holds a null |
| `Json.SatisfiedExactly` | internal/controller/frr.go:280-317 | satisfaction is that every path of the desired tree exists in the other with the same value there, lists having the same length |
| `Json.DefaultedSatisfies` | internal/controller/frr.go:280-288 | what the server stores after adding map keys satisfies what was sent |
| `FrrRender.RenderGroup` | internal/controller/frr.go:131-212 | the loops and conditional fields build the rendering whose every leaf `FrrContents` reads |
| `FrrRender.RenderNeighbors` | internal/controller/frr.go:140-161 | each neighbour is rendered with its optional fields only where they are on |
| `FrrRender.ToInterfaceMap` | internal/controller/frr.go:245-251 | every label becomes a string value, in any map order |
| `FrrRender.UnwrittenExactly` | internal/controller/frr.go:131-215 | an object left by one plan passes for another if and only if the new plan asks for nothing the old did not, field by field |
| `FrrRender.TakenAwayUnwritten` | internal/controller/frr.go:280-317 | and so it does with any server defaulting in between |
| `FrrContents.RouterReads` | internal/controller/frr.go:163-170 | there is one router, its ASN the local one, with exactly the group's neighbours |
| `FrrContents.NeighborReadsAt` | internal/controller/frr.go:140-161 | neighbour i has its address and ASN, `disableMP` true and mode `all`; multi-hop and the BFD profile are there if and only if asked for |
| `FrrContents.ProfileReads` | internal/controller/frr.go:168-181 | with BFD there is one profile, `default`, with intervals 300 and multiplier 3, and without none |
| `FrrContents.SelectorReads` | internal/controller/frr.go:138-197 | a label selects the group's value, else the router nodes', else nothing |
| `FrrContents.RawReads` | internal/controller/frr.go:203-212 | raw directives stand with priority 20 if and only if there are any |
| `FrrWriter.NoKeyLost` | internal/controller/frr.go:269-277 | for any number of retries each desired label ends with its desired value and no key of any version read is lost |
| `FrrWriter.OverwrittenKept` | internal/controller/frr.go:269-277 | the overwritten version keeps its other labels unchanged and gains none if and only if each was there with that value when first read |
| `FrrWriter.NewerValueReverted` | internal/controller/frr.go:269-277 | two reads are enough for a newer value to be reverted and a removed key to return |
| `FrrWriter.Api.Update` | internal/controller/frr.go:276 | an update of another version conflicts and writes nothing; one that is done replaces the version it names |
| `FrrWriter.Api.RetryOnConflict` | internal/controller/frr.go:269-277 | at most five attempts, others writing in between; success overwrites the version read last with the merged labels and annotations and the desired spec |
| `FrrWriter.Api.CreateOrUpdate` | internal/controller/frr.go:253-278 | success leaves an object that needs no further write; one that needed none is not written; no other object changes |
| `FrrConfigurations.ConfigNamesDistinct` | internal/controller/frr.go:105-107 | positions and object names correspond one to one |
| `FrrConfigurations.EnsureSingleFRRConfiguration` | internal/controller/frr.go:131-215 | success leaves the group's object managed and satisfying its rendering; one that did is not written |
| `FrrConfigurations.ListManaged` | internal/controller/frr.go:113-120 | lists exactly the objects with the operator's label |
| `FrrConfigurations.Prune` | internal/controller/frr.go:121-127 | of the listed objects exactly those not expected go |
| `FrrConfigurations.EnsureFRRConfigurationsFromGroups` | internal/controller/frr.go:93-129 | on success the managed objects are exactly bgp-cc-1 to bgp-cc-n, the i-th satisfying the rendering of group i; unlabelled objects of other names are never touched; a second run writes and deletes nothing |
| `FrrConfigurations.TakingAwayIsInOrder` | internal/controller/frr.go:265-267 | groups that only lose fields are taken to be in order, so nothing is written |
| `FrrConfigurations.InOrderExactly` | internal/controller/frr.go:265-267 | an object as rendered for one plan needs no write for another if and only if that one asks for nothing more |
| `FrrContents.NameReads` | internal/controller/frr.go:105-107 | the name of the object for group i is `bgp-cc-` and the decimal i + 1 |
| `FrrContents.StoredReads` | internal/controller/frr.go:93-215 | after a finished call the stored object of each group carries the managed-by label and reads so at every path, whatever else a server or a user put beside it |
| `FrrConfigurations.DeleteFRRConfigurations` | internal/controller/frr.go:217-232 | success removes exactly the labelled objects |
| `Conditions.LookupAfterSet` | vendor/k8s.io/apimachinery/pkg/api/meta/conditions.go:31-68 | setting a condition changes that one only, and its transition time only when its status changes |
| `Conditions.LookupAfterAll` | vendor/k8s.io/apimachinery/pkg/api/meta/conditions.go:31-88 | what each condition is after any consistent series of writes |
| `Conditions.PerformAllTwice` | vendor/k8s.io/apimachinery/pkg/api/meta/conditions.go:31-88 | repeating consistent writes at any later time changes nothing, transition times and order included |
| `ConfigReconciler.ListRouterNodes` | internal/controller/bgpcloudconfiguration_controller.go:487-517 | the loop splits the nodes into the complete and the incomplete ones, in order |
| `ConfigReconciler.FormatIncompleteNodesMessage` | internal/controller/bgpcloudconfiguration_controller.go:519-539 | the loops build the message, cut at 32768 characters |
| `ConfigReconciler.PeerGroupsToStatus` | internal/controller/bgpcloudconfiguration_controller.go:341-366 | the loop reports every group with its selector and neighbours |
| `ConfigReconciler.Reconciler.PatchConfigStatus` | internal/controller/status.go:42-61 | the stored status changes only when it differs, to the new one; a failed write may or may not have stored it |
| `ConfigReconciler.Reconciler.SetDegraded` | internal/controller/bgpcloudconfiguration_controller.go:588-618 | stores Degraded with the one condition, and schedules a retry unless the reason is terminal |
| `ConfigReconciler.Reconciler.Reconcile` | internal/controller/bgpcloudconfiguration_controller.go:76-306 | the step-by-step pass equals the specified one on every exit path, with its stored status, result and time of the next pass, deletions included; what those statuses read is in `ConfigVerdicts` |
| `ConfigReconciler.Reconciler.ReportWaiting` | internal/controller/bgpcloudconfiguration_controller.go:126-142 | a wait stores Configuring with the one condition False and looks again in ten seconds |
| `ConfigReconciler.Reconciler.ReconcileNetwork` | internal/controller/bgpcloudconfiguration_controller.go:102-117 | from phase 1 on the pass ends as specified |
| `ConfigReconciler.Reconciler.ReconcileFrr` | internal/controller/bgpcloudconfiguration_controller.go:119-150 | from phase 2 on the pass ends as specified, waiting for FRR included |
| `ConfigReconciler.Reconciler.ReconcileManual` | internal/controller/bgpcloudconfiguration_controller.go:151-157 | a Manual pass drops the cloud conditions and ends as specified |
| `ConfigReconciler.Reconciler.ReconcilePlatform` | internal/controller/bgpcloudconfiguration_controller.go:158-230 | building the platform and discovering end the pass as specified or hand it on |
| `ConfigReconciler.Reconciler.ReportUnreachable` | internal/controller/bgpcloudconfiguration_controller.go:166-221 | each way of not reaching the cloud drops the later conditions and reports its own reason |
| `ConfigReconciler.Reconciler.ReconcileCloud` | internal/controller/bgpcloudconfiguration_controller.go:232-260 | phase 4 and the node listing end the pass as specified or hand it on |
| `ConfigReconciler.Reconciler.ReconcileNodes` | internal/controller/bgpcloudconfiguration_controller.go:262-305 | phase 5 sets the inventory and cloud conditions and ends the pass as specified |
| `ConfigReconciler.Reconciler.CompleteReconcile` | internal/controller/bgpcloudconfiguration_controller.go:308-339 | the end of a pass stores Ready, Configuring or Degraded as specified |
| `ConfigReconciler.Reconciler.ReconcileDelete` | internal/controller/bgpcloudconfiguration_controller.go:541-586 | the deletion pass equals the specified one, with its result: a deletion that waits for routings looks again in ten seconds once it has said so, every other one that stays fails |
| `ConfigSafety.NodesPartitioned` | internal/controller/bgpcloudconfiguration_controller.go:494-516 | each node is reconciled or reported, never both, the first exactly when it has address, zone and provider |
| `ConfigSafety.NoConditionTwice` | internal/controller/bgpcloudconfiguration_controller.go:76-339 | on no exit path does a pass give a condition two different contents |
| `ConfigSafety.SecondPassWrites` | internal/controller/bgpcloudconfiguration_controller.go:76-339 | from any stored status a second pass with the same answers, the nodes listed in any order, writes if and only if the message about the nodes left out is another or the five minutes of an incomplete inventory ran out between the two |
| `ConfigSafety.ListingOrderShows` | internal/controller/bgpcloudconfiguration_controller.go:262-281 | at one time, for names as Kubernetes has them and a message not cut, a second pass leaves the status alone if and only if it lists the left-out nodes in the same order |
| `ConfigSafety.MessageChanges` | internal/controller/bgpcloudconfiguration_controller.go:262-305 | another message is another stored condition, on every exit that reports nodes |
| `NodeMessages.MessageShowsOrder` | internal/controller/bgpcloudconfiguration_controller.go:519-539 | permutations of nodes with distinct names without spaces give the same uncut message if and only if they are the same list |
| `ConfigSafety.BlockedIsQuiet` | internal/controller/status.go:84-109 | looking again at a blocked deletion writes nothing, whatever order the routings are listed in |
| `ConfigSafety.ReadyExactly` | internal/controller/bgpcloudconfiguration_controller.go:102-339 | a pass ends Ready if and only if nothing failed and no node was left out, and then shows the plan it rendered |
| `ConfigVerdicts.NameVerdict` | internal/controller/bgpcloudconfiguration_controller.go:76-101 | another name is Degraded with NetworkOperatorPatched False, InvalidName, and no later pass |
| `ConfigVerdicts.NetworkVerdict` | internal/controller/bgpcloudconfiguration_controller.go:102-117 | a failed patch is Degraded with NetworkOperatorPatched False, PatchFailed, and a pass in 30 s; on every later exit it is True |
| `ConfigVerdicts.FrrVerdict` | internal/controller/bgpcloudconfiguration_controller.go:119-150 | a failed check is Degraded and a wait Configuring, with FRRNamespaceReady False and its reason; on every later exit it is True |
| `ConfigVerdicts.CloudVerdict` | internal/controller/bgpcloudconfiguration_controller.go:158-230 | each of five ways not to reach the cloud has its phase, its reason and its next pass, with CloudEndpointsDiscovered False; on every later exit it is True |
| `ConfigVerdicts.UnreachedVerdict` | internal/controller/bgpcloudconfiguration_controller.go:158-230 | and then nothing is said of resources or nodes, and no peer group is shown |
| `ConfigVerdicts.ApplyVerdict` | internal/controller/bgpcloudconfiguration_controller.go:232-251 | a failed application is Degraded with FRRConfigurationApplied False, ApplyFailed; on every later exit it is True with the number of groups |
| `ConfigVerdicts.ListVerdict` | internal/controller/bgpcloudconfiguration_controller.go:253-261 | a failed node listing is Degraded with CloudResourcesReconciled False |
| `ConfigVerdicts.NodesVerdict` | internal/controller/bgpcloudconfiguration_controller.go:262-306 | the inventory is complete if and only if every node has a zone, a provider ID and a first internal address; then a pass without error is Ready, and otherwise not, with CloudResourcesReconciled to match |
| `ConfigVerdicts.GraceVerdict` | internal/controller/bgpcloudconfiguration_controller.go:308-339 | with nodes left out the pass is Degraded from 300 seconds on since the inventory turned False, Configuring before |
| `ConfigVerdicts.ManualVerdict` | internal/controller/bgpcloudconfiguration_controller.go:151-157 | on Manual nothing is said of any cloud, and a pass that applies its plan is Ready |
| `ConfigVerdicts.GroupsVerdict` | internal/controller/bgpcloudconfiguration_controller.go:341-366 | the peer groups shown are those discovered, one by one |
| `ConfigVerdicts.MessageReads` | internal/controller/bgpcloudconfiguration_controller.go:519-539 | the message about the nodes left out is the whole text, or its first 32768 places |
| `ConfigVerdicts.NodePartReads` | internal/controller/bgpcloudconfiguration_controller.go:519-534 | a node left out is named with exactly what it lacks |
| `ConfigVerdicts.BlockedVerdict` | internal/controller/status.go:84-109 | a deletion that waits reads DeletionBlocked True with the routings by name, and leaves phase and groups alone |
| `ConfigSafety.ReadyIsAlwaysTrue` | internal/controller/bgpcloudconfiguration_controller.go:76-339 | over every run, blocked deletions and user edits included, a stored Ready has the three conditions True and either the cloud conditions True with the peer groups of the plan given to FRR, or (Manual) none of them |
| `ConfigSafety.WindowStep` | internal/controller/bgpcloudconfiguration_controller.go:152-281 | what a pass does to the inventory window: it goes on, ends, or starts now |
| `ConfigSafety.WindowVerdict` | internal/controller/bgpcloudconfiguration_controller.go:308-339 | a pass that ends with nodes left out is Degraded from five minutes into the window on and Configuring before |
| `ConfigSafety.WindowHoldsOverRun` | internal/controller/bgpcloudconfiguration_controller.go:152-339 | over any run in which no stored pass ends it, the window keeps its start |
| `ConfigSafety.WindowStaysClosed` | internal/controller/bgpcloudconfiguration_controller.go:152-339 | over any run in which no stored pass finds a node incomplete, no window opens |
| `ConfigSafety.VerdictAfterRun` | internal/controller/bgpcloudconfiguration_controller.go:308-339 | so after any such run the verdict counts from the first |
| `ConfigSafety.FreshWindow` | internal/controller/bgpcloudconfiguration_controller.go:152-281 | after a stored pass that ended it, and any number of passes none of which stored an incomplete node, the next incomplete one starts a fresh window |
| `ConfigDeletion.NothingStranded` | internal/controller/bgpcloudconfiguration_controller.go:541-586 | over every run of passes, failed or not, and of users creating, editing and deleting: once the object is gone, no FRR object made for it is left |
| `ConfigDeletion.CloudExactly` | internal/controller/bgpcloudconfiguration_controller.go:253-306 | over every run, whatever platform and places the spec named in between, the peers and spokes that may be in the clouds are those some pass asked for and no later one, naming the same place, removed |
| `ConfigDeletion.WhatGoesLast` | internal/controller/bgpcloudconfiguration_controller.go:541-586 | in every run a pass that lets the object go comes after the last routing and the FRR objects, and leaves exactly what was outstanding and is not named by the spec of that moment, is not reachable, or has a trimmed name |
| `ConfigDeletion.NothingLeft` | internal/controller/bgpcloudconfiguration_controller.go:541-586 | nothing is left if and only if everything outstanding is at a place the spec names at that moment, reachable, under a name that is recognised |
| `ConfigDeletion.SteadyTargetIsReleased` | internal/controller/bgpcloudconfiguration_controller.go:541-586 | if the spec named one target all along, nothing is left if and only if nothing was outstanding, or the cloud could be reached and no outstanding name was trimmed |
| `ConfigDeletion.SwitchStrands` | internal/controller/bgpcloudconfiguration_controller.go:541-586 | for every platform switch or change of places between a working pass and a deletion: the run ends, cleaned up, with what was made at the old place still there |
| `ConfigDeletion.DeletionEnds` | internal/controller/bgpcloudconfiguration_controller.go:541-586 | the first pass without a routing in which no call fails ends the deletion, with what the spec names at that moment cleaned up if it can be reached |
| `RoutingReconciler.Reconciler.MapClusterUdnToRouting` | internal/controller/bgprouting_controller.go:283-298 | wakes the first listed routing on the network of a managed object, and none otherwise |
| `RoutingReconciler.Reconciler.ChangeUdn` | internal/controller/bgprouting_controller.go:244-248 | a change to a network queues what the watch maps its old and new labels to |
| `RoutingReconciler.Reconciler.EnsureClusterUdn` | internal/controller/clusterudn.go:61-104 | creates or updates the network only when it differs, and delivers the event; refused it does nothing, failed it may have written; its labels and subnets are in `RoutingVerdicts.NetworkIsWritten` |
| `RoutingReconciler.Reconciler.PatchRoutingStatus` | internal/controller/status.go:63-82 | the stored status changes, and wakes its routing, only when it differs; a failed write may or may not have stored it |
| `RoutingReconciler.Reconciler.SetDegraded` | internal/controller/bgprouting_controller.go:202-232 | stores Degraded with the one condition; terminal reasons schedule no retry |
| `RoutingReconciler.Reconciler.FindDuplicate` | internal/controller/bgprouting_controller.go:85-92 | finds the first other routing on the network |
| `RoutingReconciler.Reconciler.Reconcile` | internal/controller/bgprouting_controller.go:56-162 | the step-by-step pass leaves the state of the specified one on every exit path, with its time of the next pass |
| `RoutingReconciler.Reconciler.ReconcileLive` | internal/controller/bgprouting_controller.go:77-131 | from the listing on, a duplicate is Degraded and the rest of the pass is as specified |
| `RoutingReconciler.Reconciler.ReconcileConfigured` | internal/controller/bgprouting_controller.go:94-131 | from the check of the configuration on, every exit stores its status and schedules its pass as specified |
| `RoutingReconciler.Reconciler.FailNetwork` | internal/controller/bgprouting_controller.go:117-131 | the three exits on which the network is not in place |
| `RoutingReconciler.Reconciler.ReconcileAdvertisements` | internal/controller/bgprouting_controller.go:132-162 | from the network being in place on, Degraded or Ready as specified |
| `RoutingReconciler.Reconciler.FailAdvertisements` | internal/controller/bgprouting_controller.go:132-147 | the exit on which the shared object is not in place |
| `RoutingReconciler.Reconciler.Finish` | internal/controller/bgprouting_controller.go:148-161 | the pass that reaches its end stores Ready as specified |
| `RoutingReconciler.Reconciler.CountOthers` | internal/controller/bgprouting_controller.go:179-186 | the count is 0 if and only if the routing is the last one |
| `RoutingReconciler.Reconciler.ReconcileDelete` | internal/controller/bgprouting_controller.go:164-200 | the deletion pass leaves the state of the specified one; the shared object goes with the last routing only |
| `RoutingReconciler.Reconciler.Release` | internal/controller/bgprouting_controller.go:178-200 | the shared object goes with the last routing only, the finalizer after it, and a failed call may have removed either |
| `RoutingReconciler.Reconciler.ProcessNext` | internal/controller/bgprouting_controller.go:56-266 | one turn of the work queue, with its retries and timers, is the step of the state machine |
| `RoutingSafety.DuplicateIffShared` | internal/controller/bgprouting_controller.go:80-92 | whatever the list order, a duplicate is reported if and only if the name is shared |
| `RoutingSafety.ManagedChangeWakes` | internal/controller/bgprouting_controller.go:283-298 | a change to a managed network wakes the one routing on it |
| `RoutingSafety.EveryEventKeeps` | internal/controller/bgprouting_controller.go:56-298 | every event keeps the invariant: a routing not queued is at rest, so a Ready one that shares its name or lacks its network is queued, and the shared object exists while one is Ready |
| `RoutingSafety.InvariantOverRuns` | internal/controller/bgprouting_controller.go:56-298 | the invariant holds in every reachable state |
| `RoutingSafety.DrainedQueueIsConsistent` | internal/controller/bgprouting_controller.go:56-298 | with an empty queue, after any history, every Ready routing is alone with its objects in place, every reported duplicate is real, and whatever does not wait on its user has a timer |
| `RoutingSafety.NeverTwoOwners` | internal/controller/bgprouting_controller.go:77-158 | in no reachable state are two routings Ready for their present spec with one network name |
| `RoutingSafety.ReadyIffAlone` | internal/controller/bgprouting_controller.go:80-161 | a pass in which nothing fails ends Ready if and only if the routing is alone on its name, with its objects in place |
| `RoutingVerdicts.InPlaceExactly` | internal/controller/clusterudn.go:61-104 | a network passes for the routing's if and only if it has its name and subnets and the labels `advertise` and managed-by with their values |
| `RoutingVerdicts.DrainedIsAdvertised` | internal/controller/routeadvertisements.go:28-60 | with an empty queue, after any history, every Ready routing's network is there and selected by the shared object, which is there too |
| `RoutingVerdicts.UnadvertisedIsQueued` | internal/controller/routeadvertisements.go:28-60 | in every reachable state a Ready routing of which that is not so is queued |
| `RoutingVerdicts.ReadyIsAdvertised` | internal/controller/bgprouting_controller.go:77-161 | and it is so after any single pass that stores Ready |
| `RoutingVerdicts.NetworkIsWritten` | internal/controller/clusterudn.go:61-104 | once the network's own write went well it has those labels and subnets, however the pass ends; its other labels and every other network stay |
| `RoutingVerdicts.DuplicateVerdict` | internal/controller/bgprouting_controller.go:80-92 | a shared name is Degraded with NetworkCreated False, naming the first other routing listed on it, and no later pass |
| `RoutingVerdicts.WaitingVerdict` | internal/controller/bgprouting_controller.go:94-115 | without a Ready configuration the routing is Pending with no condition, and the next pass is in 10 s |
| `RoutingVerdicts.NetworkVerdict` | internal/controller/bgprouting_controller.go:117-139 | each of three failures of the network has its reason, with NetworkCreated False; a refused network waits for its user; on every later exit it is True |
| `RoutingVerdicts.AdvertisementsVerdict` | internal/controller/bgprouting_controller.go:140-161 | a failure to advertise is Degraded with its condition False, success is Ready with it True and the next pass in five minutes |
| `RoutingVerdicts.DeletionVerdict` | internal/controller/bgprouting_controller.go:164-200 | a deletion takes the network, then the shared object if it is the last, then the routing; it stops at the first write that does not come through, and then stays queued |
| `RoutingVerdicts.UnreportedStays` | internal/controller/bgprouting_controller.go:56-92 | a pass that does not get as far as its verdict, or cannot store it, leaves the status as it is |
| `RoutingSafety.DeletionTakesNetwork` | internal/controller/bgprouting_controller.go:164-171 | a deletion leaves another routing unchanged and takes its network away if and only if the two have one name and the delete took effect |
| `RoutingSafety.OwnerWaitsForRepair` | internal/controller/bgprouting_controller.go:164-298 | in every reachable state a routing that reads Ready and has lost its network is queued |
| `RoutingStrays.StraysExactly` | internal/controller/bgprouting_controller.go:56-200 | no pass, creation or deletion leaves a managed network to nobody; an edit does if and only if it renames the network's only claimant, others if and only if they make one nobody claims |
| `RoutingStrays.NoStraysExactly` | internal/controller/bgprouting_controller.go:56-200 | over a run, every managed network belongs in every state to a routing of its name if and only if no event strands one |
| `RoutingStrays.StraysAreForGood` | internal/controller/bgprouting_controller.go:164-298 | over any events, a network no routing is named for stays as it is until others act on it |
| `RoutingStrays.RenameStrands` | internal/controller/bgprouting_controller.go:56-200 | a run with one routing, no failing call and nobody else acting: after a rename and two passes the queue is empty and the old network is still there, managed and nobody's |
| `RoutingQuiet.SecondPassQuiet` | internal/controller/status.go:63-82 | a second pass, later and with the routings listed in any order, writes nothing and only takes its request off the queue if and only if it names the same other routing, if any |
| `RoutingQuiet.OtherNameWrites` | internal/controller/bgprouting_controller.go:80-92 | naming another duplicate stores another status and queues the routing again |
| `RoutingQuiet.QuietExactly` | internal/controller/bgprouting_controller.go:80-92 | for all pairs of listings a second pass is quiet if and only if at most one other routing has the name |

## Left out

- SDK clients, pagers, long-running operations, HTTP errors, retry back-off: a call is a change of the store that may fail before or after its effect.
- Races inside one cloud read-modify-write: a pass is one step, but for Azure's two listings and the conflict retries of the Kubernetes writer, which are modelled.
- SHA-256 is a parameter known to give eight hexadecimal characters; address parsing and API validation are preconditions (`IsAddress`: dotted IPv4, or IPv6 with a colon), and characters are single bytes.
- Source/dest check, IP forwarding, nested virtualization and network interfaces: what is kept of them is that they may fail.
- Credentials: only whether they are pending, invalid or there.
- Provider IDs and the building of the GCP node list from them, topology discovery on GCP and Azure, and the Network operator patch: inputs that may fail.
- `cmd/main.go`, cache options, RBAC, CRDs, shell scripts, logging, and metrics other than the number given to the peers gauge.
- Condition messages of the two controllers are values of a datatype that carry their parameters, except the incomplete-node message, which is text; kinds and reasons are enumerations.
- Status times are whole seconds.
- Watch events are delivered when their object changes, informer caches are current, and the listing inside a watch handler does not fail; a restart of the operator with all events lost is modelled.
- The fields of a ClusterUserDefinedNetwork other than labels and subnets, which are constants or its name, and those of the RouteAdvertisements object other than the label it selects by.
- The RouteAdvertisements object is there or not, and only this operator removes it: its deletion by others is not watched in the source either, so nothing would wake a pass before its timer.
- Floating-point numbers in JSON, finalizers, owner references and other metadata of the objects the writer updates.
- The connection state of Azure peerings and connections without properties; EC2 dropping a deleted peer from its list, which stays in the model's.
- Declared peer groups (`peerGroupsFromSpec`) and the other users of `createOrUpdate` are covered by the statements about groups and writes in general.
- `DeleteAllPeers` of the Azure backend, which nothing in the platform calls.
- ConfigDeletion.CloudExactly: tracks peers and spokes, not the instance settings, which no clean-up reverts; takes a successful ReconcileNodes to have reached its nodes' peers (`SharedRouter.EmptyDesiredIsLost` is the exception); and takes places to be independent (`Spokes.NumberedExactly` says which two spoke prefixes are not).
