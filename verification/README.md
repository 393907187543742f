# apisix-mesh-agent: a Dafny model of the configuration pipeline

apisix-mesh-agent turns full xDS snapshots into a key space that Apache APISIX reads as if it
were etcd. This project models that pipeline and proves that its three independent pictures of
the configuration agree over every run: the snapshot the provisioner keeps, the cache with its
revision metadata, and the copy a watching client builds. It also models the iptables rule
generator with its cleanup, the canonical form of route hosts, and the file provisioner.

Where the Go code changes state in place, so does the model: the classes `ObjectStore`,
`InMemoryCache`, `WatchStream`, `EtcdV3`, `Sidecar`, the two `Provisioner` classes, `Builder`,
`Dependencies` and `IptablesConstructor` follow the Go objects, and each method is proved against
a specification function or relation. What such a function means is said apart from it, in terms of
requests, resources and fields alone, by the lemmas named `...Means`, `...Verdict` and their like.

## Layout

| file | content |
|---|---|
| `Strings.dfy`, `StringSets.dfy` | `strings.Split`, key order, decimal and hex text; `pkg/set` |
| `Objects.dfy`, `Diff.dfy`, `Manifest.dfy` | objects, events, stores; list diffs; manifests |
| `Cache.dfy`, `EtcdModel.dfy`, `History.dfy` | the cache; metadata, listing and log; the key space as a function of history |
| `Conformance.dfy`, `WatchModel.dfy`, `EtcdServer.dfy` | request checks and path lookup; streams as a state machine; the server objects |
| `Sidecar.dfy` | the consume loop; clients that follow, or watch again after a gap |
| `Interleaving.dfy`, `Fallbacks.dfy`, `WatchStart.dfy` | the consume loop and readers at the grain of single shared accesses; what fallback metadata does; a watch that starts meanwhile |
| `Adaptor.dfy`, `RouteLaws.dfy` | translation of routes, clusters and endpoints; what a translated route is, field by field |
| `ProvisionerModel.dfy`, `ResponseLaws.dfy`, `ProvisionerRuns.dfy`, `GrpcProvisioner.dfy` | the gRPC provisioner: step function, what it makes of each response, whole runs, object |
| `Pipeline.dfy` | xDS responses in, the client's copy out |
| `FileProvisioner.dfy`, `Iptables.dfy` | files as a source; rule generation and cleanup |

## What is assumed

- Batches and watch responses arrive in the order they were sent. The Go code hands both to
  unordered goroutines (pkg/provisioner/xds/v3/grpc/types.go:399-401,
  pkg/etcdv3/etcd.go:289-303); convergence is not promised without this.
- `GenID` is the hexadecimal form of an arbitrary function `crc`; the theorems that need it ask
  that `GenId` tells apart the cluster names in use.
- JSON marshalling is a total injective constructor. A resource that does not unmarshal is a
  value of its own, `MalformedRes`.
- A Go map's iteration order is arbitrary: a walk is an unconstrained listing of the keys.
- iptables' reading of a `--dport` operand is a parameter, a function from text to an optional
  set of ports, so the policy theorems hold for single ports and for whatever else iptables reads.
- How iptables executes `-N`, `-A`, `-D`, `-F` and `-X` follows its manual; the order in
  which the rule builder of istio emits them is the one fixed by cmd/iptables/iptables_test.go.

## Behaviour that departs from what one would expect

Each of these is a theorem about the code as it stands.

- `Iptables.CommasOnlyFails`, `Iptables.SetupSucceedsIff`: an inbound port list that is not empty
  but names no port, such as ",", makes PREROUTING jump to a chain that is never created.
- `Iptables.CleanupRestoresIff`: cleanup empties the built-in OUTPUT chain, so it restores the
  table exactly when OUTPUT was empty before setup.
- `ProvisionerRuns.AgreeThroughoutIff`, `ProvisionerRuns.TornExactly`: an EDS response rejected after
  its first resources leaves cache and snapshot apart, exactly when a known cluster before the first
  unknown one got new nodes; `ProvisionerRuns.TornRun` is such a run.
- `ProvisionerRuns.SubscribedStep`: a rejected CDS response can make a later, accepted one skip its EDS
  subscription, exactly when the accepted one names the same waiting clusters and the latest EDS
  request does not; `ProvisionerRuns.RejectedCdsLosesSubscription` is such a run.
- `ProvisionerRuns.InlineRoutesNeverServed`: routes written inline in a listener are never served; what
  is held is right exactly when the inline configurations ask for no route.
  `ProvisionerRuns.InlineRouteLost` is a run that loses one.
- `History.CatchUpIsCompleteIff`, `History.CatchUpMissesDeletion`: a watch with a start revision
  never reports deletions.
- `Interleaving.CreateCanExceedMod`: a range request that runs between cache and push records
  metadata whose create revision later exceeds the mod revision. `Fallbacks.CreateExceedsModIff` says
  of every key when this happens, `Fallbacks.PublishedIsHistoryIff` when any create revision is not
  that of the history.
- `WatchStart.ToldIff`: a watch that starts amid pushes misses an update from its start revision on
  exactly when it reads a stale fallback in place of the key's metadata; `WatchStart.UpdateNeverTold`
  is such a schedule.
- `Diff.EmptyDiff`, `Adaptor.DomainOrderCausesNoEvents`: with repeated ids, a list diffed against itself
  need not give an empty diff; `Adaptor.UnnamedRoutesKeepUpdating` is a configuration that updates for
  ever.
- `Conformance.PointLookupAgrees`: an object whose id contains a slash is listed but cannot be
  looked up; `Adaptor.GenIdHasNoSlash` shows that generated ids have none.
- `Sidecars.Sidecar.ReflectToCache`: the first event gets revision 0, and the current revision is one
  past the last stamped one (pkg/sidecar/cachereflection.go:62-71); etcd starts at 1.

## Model

| member | source | states |
|---|---|---|
| Pipeline.EndToEnd | pkg/provisioner/xds/v3/grpc/types.go:274-403 | For every run of responses with no torn EDS response, a client that watches both directories from the start and applies what it is owed holds the last-wins map of the provisioner's routes and its upstreams under their ids, and nothing else |
| Pipeline.RunPipeline | pkg/sidecar/types.go:122-134 | The same run on the objects: after all responses are handled and all batches consumed, cache and the stream's queue mirror the provisioner |
| Pipeline.Follow | pkg/sidecar/types.go:122-134 | A fresh sidecar that consumes all batches has exactly their stamped history, and its open stream was sent what that history owes it |
| Pipeline.Watch | pkg/etcdv3/watch.go:288-337 | A create request on a directory registers exactly that id for that resource and nothing else changes |
| ProvisionerRuns.CacheFollowsProvisioner | pkg/provisioner/xds/v3/grpc/types.go:274-403 | Over any mix of responses, accepted and rejected, without a torn one, the folded events equal the last-wins map of the routes and the upstreams re-keyed by id |
| ProvisionerModel.SyncStep | pkg/provisioner/xds/v3/grpc/types.go:274-403 | One response keeps cache and snapshot in step if and only if it is not an EDS response that is rejected after changing the snapshot |
| ProvisionerRuns.TornExactly | pkg/provisioner/xds/v3/grpc/types.go:337-345 | A response tears exactly when it is an EDS one with a first unknown or malformed resource and an assignment before it that changes a known cluster's nodes |
| ProvisionerModel.EdsMoves | pkg/provisioner/xds/v3/grpc/delivery.go:88-124 | EDS moves the by-name snapshot and its by-id form alike and never changes the set of clusters |
| ProvisionerModel.SyncCds | pkg/provisioner/xds/v3/grpc/types.go:301-336 | After an accepted CDS response the cache holds the new clusters by id, whatever order the old map was walked in |
| ProvisionerModel.RekeyedLastWins | pkg/provisioner/xds/v3/grpc/types.go:322-323 | The last-wins map by name and the one by id of the same clusters are re-keyings of each other |
| ProvisionerModel.EdsRequiredAreKept | pkg/provisioner/xds/v3/grpc/types.go:301-329 | Every cluster that requires EDS is kept under its name |
| ProvisionerRuns.AckTrace | pkg/provisioner/xds/v3/grpc/types.go:238-272 | The acknowledgements of a run are in order one per response with its type and nonce, an error exactly when it was rejected, the version of the latest accepted response of any type, and resource names that hold before and after the translation |
| ProvisionerRuns.VersionIsLastAccepted | pkg/provisioner/xds/v3/grpc/types.go:239-268 | The one version kept for all types is that of the latest accepted response |
| ProvisionerRuns.AckNamesHold | pkg/provisioner/xds/v3/grpc/types.go:252-259 | The names put into an acknowledgement before translation are still the right ones after it |
| ProvisionerRuns.OneAckPerResponse | pkg/provisioner/xds/v3/grpc/types.go:244-270 | Each response adds exactly one acknowledgement to what is sent, after any subscription it caused |
| ProvisionerRuns.EdsSubscription | pkg/provisioner/xds/v3/grpc/types.go:301-336 | Over a first connection with no rejected CDS response, a non-empty set of clusters waiting for EDS is exactly what the latest EDS request names, and lies within the known clusters |
| ProvisionerRuns.SubscribedStep | pkg/provisioner/xds/v3/grpc/types.go:303-336 | Whatever the state, after a CDS response read in full the subscription is right if and only if it names no EDS cluster, differs from the set recorded as waiting, or names just those of the latest EDS request; after a rejected one, if and only if the clusters read are kept and none or just those; after an EDS one, if and only if the waiting clusters are kept; any other changes nothing |
| ProvisionerRuns.RejectedCdsLosesSubscription | pkg/provisioner/xds/v3/grpc/types.go:303-319 | A concrete pair of CDS responses after which a cluster waits for endpoints that were never requested |
| ProvisionerRuns.InlineRoutesNeverServed | pkg/provisioner/xds/v3/grpc/delivery.go:43-61 | Over any run the routes held are, block by block and in order, the translations of the route configurations of the last accepted RDS response, and equal these with the translated inline configurations added if and only if the latter translate to no route; before any accepted RDS response none is held |
| ProvisionerRuns.InlineRouteLost | pkg/provisioner/xds/v3/grpc/types.go:291-299 | A concrete listener with one inline route, then an accepted RDS response, after which no route is held |
| ProvisionerRuns.AgreeThroughoutIff | pkg/provisioner/xds/v3/grpc/types.go:274-403 | Cache and snapshot agree after every response of a run if and only if none of its responses is torn |
| ProvisionerRuns.TornApart | pkg/provisioner/xds/v3/grpc/types.go:337-345 | The first torn response of a run sets cache and snapshot apart |
| ProvisionerRuns.TornRun | pkg/provisioner/xds/v3/grpc/types.go:337-345 | A concrete run from the start: an accepted CDS response, then an EDS response that is torn, after which cache and snapshot differ |
| ProvisionerModel.AddressDetermines | pkg/provisioner/xds/v3/grpc/types.go:367-379 | The owner recorded for a route configuration determines its listener's host and port, colons in the host included |
| ResponseLaws.RdsMeans | pkg/provisioner/xds/v3/grpc/types.go:283-299 | An RDS response is accepted if and only if all its resources are route configurations; then the routes held are one block per resource, in order, each the translation of that resource, and nothing else changes; a rejected one changes nothing |
| ResponseLaws.CdsMeans | pkg/provisioner/xds/v3/grpc/types.go:301-329 | A CDS response is accepted if and only if all its resources are clusters, served or not; then a name is held if and only if a served cluster has it, as the upstream of the last one; the names waiting for EDS are those of the served EDS clusters before the first other resource, accepted or not |
| ResponseLaws.CdsEffects | pkg/provisioner/xds/v3/grpc/types.go:330-336 | EDS is requested, for exactly the waiting names, if and only if the response is accepted and these are some and differ from those before; a rejected response changes nothing but the waiting names |
| ResponseLaws.EdsMeans | pkg/provisioner/xds/v3/grpc/types.go:337-345 | An EDS response is accepted if and only if all its resources are assignments of known clusters; those before the first other one replace the nodes of their cluster, the last for good, and nothing else; an accepted one sends one update per resource in order, a rejected one nothing |
| ResponseLaws.LdsMeans | pkg/provisioner/xds/v3/grpc/types.go:346-382 | An LDS response is accepted if and only if all its resources are listeners whose connection managers can be read where the listener has a port; then a name is owned if and only if such a listener has it by RDS or inline, under host:port of the last one, and the inline configurations are kept each once and in order; a rejected one changes nothing |
| ResponseLaws.LdsRequests | pkg/provisioner/xds/v3/grpc/types.go:372-383 | After an accepted LDS response exactly the names its listeners take by RDS are requested, and nothing if there is none |
| ResponseLaws.OtherMeans | pkg/provisioner/xds/v3/grpc/types.go:384-386 | A response of any other type is rejected and changes nothing |
| ResponseLaws.AckMeans | pkg/provisioner/xds/v3/grpc/types.go:244-270 | Each round ends with one acknowledgement of the response's type and nonce, failed exactly on rejection, with the new version or the kept one, naming the clusters that waited or the route configurations owned before the response, and nothing for other types |
| ProvisionerRuns.OwnershipHeld | pkg/provisioner/xds/v3/grpc/types.go:346-382 | Over any run the owned route configurations and their owners are those of the last accepted LDS response |
| GrpcProvisioner.Provisioner.Translate | pkg/provisioner/xds/v3/grpc/types.go:274-403 | State, acceptance, subscriptions and batch are those of the step function, for some walk over the old upstreams |
| GrpcProvisioner.Provisioner.HandleResponse | pkg/provisioner/xds/v3/grpc/types.go:244-270 | One round of the loop is one step, acknowledgement and version included |
| GrpcProvisioner.Provisioner.TranslateLoop | pkg/provisioner/xds/v3/grpc/types.go:238-272 | The loop produces a run of the step relation over exactly the given responses, and its batches are that run's |
| GrpcProvisioner.Provisioner.ReadClusters | pkg/provisioner/xds/v3/grpc/types.go:304-324 | The set of clusters needing EDS reflects the resources read so far even when a later one fails |
| GrpcProvisioner.Provisioner.ProcessCluster | pkg/provisioner/xds/v3/grpc/delivery.go:63-86 | A cluster joins the EDS set exactly when its discovery needs it, and an unsupported one is skipped |
| GrpcProvisioner.Provisioner.ProcessClusterLoadAssignment | pkg/provisioner/xds/v3/grpc/delivery.go:88-124 | An unknown cluster changes nothing; a known one has its nodes replaced at once |
| GrpcProvisioner.Provisioner.ProcessStaticRouteConfigurations | pkg/provisioner/xds/v3/grpc/delivery.go:43-61 | No route results, whatever is translated |
| GrpcProvisioner.Provisioner.TranslateRoutesResponse | pkg/provisioner/xds/v3/grpc/types.go:283-299 | All translated routes in order, or a rejection that has changed nothing |
| GrpcProvisioner.Provisioner.TranslateClustersResponse | pkg/provisioner/xds/v3/grpc/types.go:301-336 | The new snapshot replaces the old one only if every resource was read, and EDS is requested only on a changed set |
| GrpcProvisioner.Provisioner.TranslateAssignmentsResponse | pkg/provisioner/xds/v3/grpc/types.go:337-345 | The snapshot changes resource by resource up to the first failure |
| GrpcProvisioner.Provisioner.TranslateListenersResponse | pkg/provisioner/xds/v3/grpc/types.go:346-383 | Ownership and inline configurations are replaced together or not at all |
| GrpcProvisioner.Provisioner.ListUpstreams | pkg/provisioner/xds/v3/grpc/types.go:326-328 | The map is listed along some walk that meets each key once |
| GrpcProvisioner.Provisioner.SendEds | pkg/provisioner/xds/v3/grpc/types.go:456-473 | A request naming exactly the required clusters, and none for the empty set |
| GrpcProvisioner.Provisioner.TrySendRds | pkg/provisioner/xds/v3/grpc/types.go:475-487 | A request naming exactly the given routes, and none when there are none |
| GrpcProvisioner.CollectRouteNamesAndConfigs | pkg/adaptor/xds/v3/listener.go:19-51 | Fails exactly when a connection manager does not unmarshal, else returns the RDS names and inline configurations in filter order |
| Diff.PatchMovesSnapshot | pkg/apisix/route.go:12-43 | For any two lists, repeated ids included, additions then deletions then updates turn the last-wins map of the first into that of the second, beside any other ids |
| Diff.SnapshotMoves | pkg/apisix/upstream.go:12-42 | The same for a store of one owner |
| Diff.EmptyDiff | pkg/apisix/route.go:33-41 | The diff is empty exactly when the ids agree and no element of the old list differs from the last new value of its id |
| Adaptor.UnnamedRoutesKeepUpdating | pkg/adaptor/xds/v3/route.go:86-112 | Two unnamed routes of one virtual host with different paths make a configuration whose translation, diffed against itself, is not empty |
| Diff.DistinctDiffIsMinimal | pkg/apisix/route.go:12-43 | With distinct ids the three groups touch disjoint ids; additions are new, deletions present, updates real changes |
| Diff.CompareLists | pkg/apisix/route.go:12-43 | The two-map algorithm yields a diff that moves one last-wins map to the other |
| Diff.OneByOne | pkg/apisix/route.go:28-41 | The three groups are built element by element and in order of the lists, by the id's presence on the other side and by equality |
| Diff.EmptySides | pkg/apisix/upstream.go:13-18 | The early returns for a nil side agree with the general algorithm |
| Diff.IndexById | pkg/apisix/route.go:20-27 | Filling a map from a list leaves the last element of every id |
| Objects.LastWinsIsLast | pkg/apisix/route.go:22-27 | A last-wins map holds for each id the element at the last position that has it |
| Manifests.DiffEventsPatch | pkg/provisioner/xds/v3/grpc/types.go:405-454 | The events of a diff act on both stores at once as the two list patches do |
| Manifests.DiffEventsConverge | pkg/provisioner/xds/v3/file/types.go:285-330 | With either side possibly absent, the events turn a store holding the old manifest beside others into one holding the new manifest beside the same others |
| Manifests.DistinctDiffEventsCount | pkg/provisioner/util/manifest.go:16-71 | With distinct ids every event changes the store it meets, no delete misses and no key is touched twice |
| Manifests.DiffEventsMembers | pkg/provisioner/xds/v3/grpc/types.go:443-453 | The events of a diff are exactly: an Add for each new object whose id is new, a Delete with tombstone for each old object whose id is gone, and an Update to the last new object of each id some old object of which differs |
| Manifests.EventsMean | pkg/provisioner/util/manifest.go:42-71 | One event per object, routes before upstreams, each in order, the object as tombstone of a Delete and as object otherwise |
| Manifests.DiffEventsOrder | pkg/provisioner/xds/v3/grpc/types.go:443-452 | Additions come before deletions and these before updates |
| Manifests.DiffFrom | pkg/provisioner/util/manifest.go:16-34 | The three manifests are the diffs of both lists |
| Manifests.Events | pkg/provisioner/util/manifest.go:42-71 | Routes then upstreams, a delete carrying its object as tombstone and any other event as object |
| Manifests.GenerateEvents | pkg/provisioner/xds/v3/grpc/types.go:405-454 | Adds, then deletes, then updates, for every combination of present and absent sides |
| EtcdModel.ListingIsReplay | pkg/etcdv3/kv.go:184-244 | Pushing any events moves the listing of both directories exactly as replaying the published log moves a copy of it, both revisions and values included |
| EtcdModel.InStepKept | pkg/etcdv3/etcd.go:210-240 | Metadata exists exactly for the cached objects, and stays so |
| EtcdModel.OwnListingStep | pkg/etcdv3/etcd.go:184-240 | One event changes one entry of its directory, to what was published |
| EtcdModel.OtherListingKept | pkg/etcdv3/etcd.go:184-240 | An event of one resource leaves the other directory as it was |
| EtcdModel.DirectoryIsInterval | pkg/etcdv3/conformance.go:17-26 | For every prefix the keys of a directory are exactly those in the lexicographic interval [key, range_end) |
| EtcdModel.NameInjective | pkg/etcdv3/kv.go:205-226 | A composed key determines both resource and id |
| EtcdModel.LogAppend | pkg/etcdv3/etcd.go:178-240 | The log of a history cut anywhere is the log of the first part and then that of the second from the metadata in between |
| EtcdModel.MetaOrMeans | pkg/etcdv3/kv.go:95-107 | Recorded metadata is used and stays; where there is none both revisions are the current one |
| History.MetadataIsHistory | pkg/etcdv3/etcd.go:210-240 | A key has metadata exactly when its last event was a PUT; modRevision is that event's index, createRevision the index of the first PUT since the last delete, and 0 <= create <= mod < the revision |
| History.LogEntry | pkg/etcdv3/etcd.go:193-233 | What is published for event j: the key under the prefix, mod revision j, the event's object, deletion exactly for a Delete, and as create revision the first PUT since the key's last delete, or j for a key that was not live |
| History.KeySpaceIsListing | pkg/etcdv3/kv.go:184-244 | Between batches the listing equals the replayed history whatever the current revision, so the fallback metadata is never used |
| History.WatcherFollows | pkg/etcdv3/etcd.go:242-305 | A client with the listing of a directory that replays the log's events in its interval has the listing after any further events |
| History.CatchUp | pkg/etcdv3/watch.go:78-196 | Overlaying the PUTs since r on the key space before r gives the current key space plus exactly the keys live then and deleted now |
| History.CatchUpIsCompleteIff | pkg/etcdv3/watch.go:118-156 | Catching up gives the current directory if and only if the last event of every key live before r is a PUT |
| History.CatchUpMissesDeletion | pkg/etcdv3/watch.go:118-156 | A concrete history whose deletion a watch from revision 1 never reports |
| History.ListingIsRestriction | pkg/etcdv3/kv.go:184-244 | A directory's listing is the key space restricted to the requested interval |
| Conformance.AcceptedRangeIsDirectory | pkg/etcdv3/conformance.go:11-50 | An accepted range is one of the two directories, and a stored key is in it exactly when it is in the interval the client asked for |
| Conformance.AcceptedWatchIsDirectory | pkg/etcdv3/conformance.go:52-100 | The same for an accepted watch and the resource it is registered for |
| Conformance.RangeVerdict | pkg/etcdv3/conformance.go:11-50 | Each verdict on a range request if and only if its fields say so: no key, a pair of key and range_end that is not served, something asked for that is not supported, or none of these |
| Conformance.WatchVerdict | pkg/etcdv3/conformance.go:52-100 | The same for watch requests of every kind |
| Conformance.ObjectKeyParts | pkg/etcdv3/kv.go:117-126 | A key splits into empty, resource word and id exactly when it is the composed key of a slash-free id |
| Conformance.DirectoryKeyParts | pkg/etcdv3/kv.go:184-193 | A key splits into empty and resource word exactly when it is that directory |
| Conformance.PointLookupAgrees | pkg/etcdv3/kv.go:117-182 | A lookup succeeds exactly on the listed keys with slash-free ids, and finds the listed key-value |
| WatchModel.DeliveryAccounting | pkg/etcdv3/etcd.go:242-305 | Over any run of opens, closes, creates, cancels and pushes, the queue of an id grows by exactly what the pushes owe it while its stream lives |
| WatchModel.DeliveryBetween | pkg/etcdv3/watch.go:47-76 | An id registered for one resource only gets one response for each event of that resource and none otherwise; an unregistered id gets none |
| WatchModel.RegistrationLasts | pkg/etcdv3/watch.go:47-76 | A registration changes only by an accepted create or a cancel of that id on that stream |
| WatchModel.CreateThenCancel | pkg/etcdv3/watch.go:47-76 | A stream survives an accepted create only if the id was new to that resource, and has it registered then; a survived cancel of an id in use for one resource leaves it in use for none |
| WatchModel.CreateMeans | pkg/etcdv3/watch.go:279-314 | By the fields of a create request: a key of no directory leaves the stream alone, an empty key or an unsupported option ends it, and else the id, given or random, is registered for that directory's resource unless it is already, which ends it |
| WatchModel.CancelMeans | pkg/etcdv3/watch.go:47-59 | A cancel drops the id from the routes, else from the upstreams, else ends the stream |
| WatchModel.NoStreamOverwritten | pkg/etcdv3/watch.go:198-205 | An open never takes the number of a live stream and leaves every other stream alone |
| WatchModel.OnlyAcceptedRanges | pkg/etcdv3/watch.go:267-364 | Every registered id was asked for, on its stream, by a create request whose key and range_end are the directory of its resource |
| EtcdServer.OwedIsLogInRange | pkg/etcdv3/etcd.go:242-305 | What a batch owes an id registered for one resource is the log restricted to the interval of that directory |
| EtcdServer.OwedResponses | pkg/etcdv3/etcd.go:246-284 | Every pushed response carries its watch id, one event, and that event's revision, and is neither a created nor a canceled one |
| EtcdServer.FirstWatchIsChangedSince | pkg/etcdv3/watch.go:118-196 | Between batches the first response holds exactly the listed key-values with modRevision at or above the start |
| EtcdServer.FirstWatchMeans | pkg/etcdv3/watch.go:118-196 | In any state a first watch holds a stored object exactly when metadata is recorded for it with a mod revision from the start on, with that metadata and the stored value |
| EtcdServer.DeliversAppend | pkg/etcdv3/etcd.go:178-182 | Deliveries of consecutive batches compose |
| EtcdServer.EtcdV3.ComposeKeyValue | pkg/etcdv3/kv.go:94-115 | Recorded metadata is used, missing metadata becomes the given revision and is recorded |
| EtcdServer.EtcdV3.FindExactKey | pkg/etcdv3/kv.go:117-182 | Finds a key exactly when a listing contains it and its id has no slash, and returns the listed key-value |
| EtcdServer.EtcdV3.FindAllKeys | pkg/etcdv3/kv.go:184-244 | Lists every stored object of the directory once with its metadata, and misses on any other key |
| EtcdServer.EtcdV3.Range | pkg/etcdv3/kv.go:26-62 | By the fields of the request: an empty key is refused, an unknown range_end pair misses, a limit, order or revision bound is refused, and any other readdir returns each stored key-value of [key, range_end) once, any other point request the one with that key; values are blanked only by keys_only |
| EtcdServer.EtcdV3.FindAccepted | pkg/etcdv3/kv.go:41-52 | An accepted readdir finds each stored key-value of the interval once, an accepted point request exactly the one with that key and a slash-free id |
| EtcdServer.EtcdV3.PushEvent | pkg/etcdv3/etcd.go:184-306 | One push is one step of the stream state machine: metadata moves and every registered id of every live stream is sent the event |
| EtcdServer.EtcdV3.PushEvents | pkg/etcdv3/etcd.go:178-182 | After a batch the metadata is the fold of its events and every id was sent what they owe it, in order |
| EtcdServer.EtcdV3.AddWatchStream | pkg/etcdv3/watch.go:198-205 | The stream is added under an unused number |
| EtcdServer.EtcdV3.RemoveWatchStream | pkg/etcdv3/watch.go:207-265 | Only that stream goes |
| EtcdServer.EtcdV3.FindChanged | pkg/etcdv3/watch.go:118-196 | Each stored object of the resource changed since the revision is listed once, objects without metadata are skipped |
| EtcdServer.EtcdV3.FirstWatch | pkg/etcdv3/watch.go:78-116 | One created response under the current revision with a PUT for each of them |
| EtcdServer.EtcdV3.OnCreateRequest | pkg/etcdv3/watch.go:288-337 | A create is skipped, ends the stream, or registers the id and is answered with the changes since the start revision; nothing else moves |
| EtcdServer.EtcdV3.OnCancelRequest | pkg/etcdv3/watch.go:338-362 | A cancel drops one registration and is answered, or ends the stream when the id is unknown |
| EtcdServer.EtcdV3.OnWire | pkg/etcdv3/watch.go:267-364 | Every request is one step of the stream state machine; a create for a key of no directory leaves everything as it was and is not answered; a stream that ends gets no answer; any other create or cancel is answered once, for the id given or the random one, under the current revision |
| EtcdServer.WatchStream.CreateWatchId | pkg/etcdv3/watch.go:61-76 | Refuses exactly an id already used for that resource |
| EtcdServer.WatchStream.CancelWatchId | pkg/etcdv3/watch.go:47-59 | Drops the route registration first, and fails exactly when there is none at all |
| EtcdServer.WatchStream.FanOut | pkg/etcdv3/etcd.go:243-303 | Each registered id is queued one response, in whatever order the map is walked, and no other id any |
| Cache.ObjectStore.Get | pkg/cache/route.go:24-34 | The stored object, or not found |
| Cache.ObjectStore.List | pkg/cache/upstream.go:42-55 | Every stored object once, in an order nobody promises |
| Cache.ObjectStore.Insert | pkg/cache/upstream.go:57-63 | Replaces what is stored under the object's id |
| Cache.ObjectStore.Delete | pkg/cache/route.go:54-64 | Reports not found exactly when the id is missing, and otherwise removes it |
| Sidecars.Sidecar.ReflectToCache | pkg/sidecar/cachereflection.go:17-73 | The batch gets consecutive revisions in place from the current one, the cache is the fold of the batch, and the revision moves by its length |
| Sidecars.Sidecar.ReflectOne | pkg/sidecar/cachereflection.go:18-61 | An unknown object or a delete that misses changes nothing, any other event is applied |
| Sidecars.Sidecar.Consume | pkg/sidecar/types.go:128-131 | One batch extends the history by its stamped events and keeps cache, metadata and revision functions of that history |
| Sidecars.Sidecar.Run | pkg/sidecar/types.go:122-134 | The same for all batches, with every id of every stream sent what they owe it |
| Sidecars.Sidecar.Revision | pkg/sidecar/types.go:163-165 | One past every revision stamped or recorded so far |
| Sidecars.ClientFollows | pkg/etcdv3/etcd.go:225-305 | A client holding a listing that applies what its watch id was sent holds the listing after the batch |
| Sidecars.RewatchFollows | pkg/etcdv3/watch.go:78-196 | A client that listed at r, watches again from r later and follows holds the directory plus exactly the keys live at r, deleted before the new watch and not sent since; it holds the directory if and only if there is none |
| Sidecars.MetaBelowRevision | pkg/etcdv3/etcd.go:210-240 | Between batches 0 <= create <= mod < revision for every recorded key |
| Interleaving.RevisionSafety | pkg/sidecar/cachereflection.go:62-71 | Under every interleaving of cache, stamp, push and reader steps the revision never goes down, stamps are consecutive in arrival order, pushes have strictly increasing revisions, and no recorded, returned or published revision exceeds the current one |
| Interleaving.ReplicaAtRest | pkg/etcdv3/kv.go:94-107 | Whatever readers did, once the consumer is idle the cache is the fold of all events received and a client that replayed every push has the keys, values and mod revisions of the history |
| Fallbacks.CreateExceedsModIff | pkg/etcdv3/kv.go:94-107 | Over every interleaving and for every key: some event of the key is published with create above mod if and only if some event of it loaded its metadata when the last write to the key was a reader's fallback with a revision above the event's |
| Fallbacks.PublishedIsHistoryIff | pkg/etcdv3/etcd.go:210-240 | Over every interleaving the published log is that of the history, create revisions included, if and only if every fallback an event loaded had read the create revision the history gives that event |
| Fallbacks.RecordedIsHistoryIff | pkg/etcdv3/kv.go:94-107 | At rest and with such a log, the replica is the key space of the history, and the recorded metadata is that of the history if and only if each fallback that is still a key's last write stands where the history has the same metadata |
| Fallbacks.RunTraced | pkg/etcdv3/etcd.go:210-240 | In every reachable state recorded metadata is what the last write to its key left, and each published create revision comes from the write that was last when the metadata was loaded |
| Fallbacks.ReturnedExplained | pkg/etcdv3/kv.go:94-115 | Over every interleaving each returned key-value is of an object that was cached at some moment, under its key, with metadata recorded for that key at some moment |
| WatchStart.ToldIff | pkg/etcdv3/watch.go:61-196 | However a watch's registration, listing and reads interleave with consumer, fan-out and other readers: at rest, a key whose last event is a PUT from the start revision on is in the first response or pushed if and only if the event was published after the registration or the watch did not read a fallback below the start; a key of the first response that was not pushed has its current value |
| WatchStart.AlwaysOk | pkg/etcdv3/etcd.go:242-305 | In every reachable state a stream's queue is exactly what was published for its directory since it registered, and every listed object is still to be read or was read after the writes of all events published before |
| WatchStart.UpdateNeverTold | pkg/etcdv3/kv.go:94-107 | A concrete schedule in which a stale fallback hides an update from a watch that asked for it |
| Interleaving.SafeUnderInterleaving | pkg/etcdv3/etcd.go:210-240 | The invariants hold in every reachable state, the order of stamping and pushing included |
| Interleaving.CreateCanExceedMod | pkg/etcdv3/kv.go:98-107 | A concrete interleaving that publishes a create revision above the mod revision |
| StringSets.SortedDependsOnSet | pkg/set/string.go:41-45 | Two lists have the same sorted listing exactly when they have the same elements |
| StringSets.SortedListingUnique | pkg/set/string.go:41-45 | A set has one strictly sorted listing |
| StringSets.Equal | pkg/set/string.go:14-29 | True exactly for equal sets |
| StringSets.ListStrings | pkg/set/string.go:32-38 | Every element once |
| StringSets.OrderedStrings | pkg/set/string.go:41-45 | The strictly sorted listing of the set |
| StringSets.SortStrings | pkg/set/string.go:41-45 | In place, the array becomes the sorted listing of its elements |
| Adaptor.HostsAreCanonical | pkg/adaptor/xds/v3/route.go:47-62 | Two domain lists give equal hosts exactly when they denote the same set, "*" absorbing and ports stripped |
| Adaptor.StripPortMeans | pkg/adaptor/xds/v3/route.go:55-57 | What is left of a domain is the text before its first colon, or all of it |
| RouteLaws.TranslateMeans | pkg/adaptor/xds/v3/route.go:20-121 | A configuration translates to one route per served route of each virtual host, each once and in order, with name, id, priority, status, path, upstream id, hosts and variables as that route, its virtual host and its owner say |
| RouteLaws.TranslatedIff | pkg/adaptor/xds/v3/route.go:66-119 | A route is among the translated ones only if some served route gives it, and every served route gives one |
| RouteLaws.DestinationMeans | pkg/adaptor/xds/v3/route.go:250-265 | The added condition compares with the owner's address, or matches its port where the owner listens on 0.0.0.0 |
| RouteLaws.RouteRefersToCluster | pkg/adaptor/xds/v3/route.go:115-115 | A translated route's upstream id is the id of the upstream that any served cluster of the route's cluster name translates to |
| RouteLaws.RouteIsBackedIff | pkg/adaptor/xds/v3/cluster.go:14-18 | With the snapshot in the cache, a route's upstream is cached if and only if the provisioner knows its cluster, and is then that cluster's upstream |
| Adaptor.DomainOrderIrrelevant | pkg/adaptor/xds/v3/route.go:20-121 | Configurations that differ only in order or repetition of domains translate to equal routes |
| Adaptor.DomainOrderCausesNoEvents | pkg/apisix/route.go:33-41 | Such a rewrite causes no event if and only if no route is shadowed by a different one with its id, in particular when ids are distinct |
| Adaptor.GenIdHasNoSlash | pkg/id/idgen.go:9-15 | No generated id contains a slash |
| Adaptor.GenIdMeans | pkg/id/idgen.go:9-15 | An id reads back as the checksum of its name and is empty for the empty name, so names are told apart exactly as their checksums are |
| Adaptor.NodesComeFromEndpoints | pkg/adaptor/xds/v3/cluster.go:89-147 | The nodes are exactly those of TCP endpoints without a named port, an endpoint's weight overriding its locality's |
| Adaptor.EndpointMeans | pkg/adaptor/xds/v3/cluster.go:91-143 | One TCP endpoint without a named port gives one node with its host and port, 0 without one, and its weight, else its locality's, else 100; any other endpoint gives none |
| Adaptor.ToInt32Means | pkg/adaptor/xds/v3/cluster.go:94-118 | Conversions to int32 wrap around and are exact below 2^31 |
| Adaptor.ClusterMeans | pkg/adaptor/xds/v3/cluster.go:13-87 | A cluster is served exactly when its balancer is one of two and its discovery is not custom, needs EDS exactly when it says so, and gives id, name, balancer, timeouts and nodes as said |
| Adaptor.NodesAppend | pkg/adaptor/xds/v3/cluster.go:89-147 | Nodes keep the order and repetitions of localities: those of a concatenation are those of its parts, one after the other |
| Adaptor.LocalityNodesAppend | pkg/adaptor/xds/v3/cluster.go:89-147 | The same for the endpoints of one locality |
| Adaptor.CollectHosts | pkg/adaptor/xds/v3/route.go:47-62 | The domain loop with its early exit computes the canonical hosts |
| Adaptor.TranslateVirtualHost | pkg/adaptor/xds/v3/route.go:42-121 | One route per route that is not skipped, all with the canonical hosts |
| Adaptor.TranslateRouteConfiguration | pkg/adaptor/xds/v3/route.go:20-40 | The routes of all virtual hosts in order, patched exactly when the configuration has an owner |
| Adaptor.PatchRoutes | pkg/adaptor/xds/v3/route.go:250-265 | Every route gets the condition on the original destination, in place |
| Adaptor.TranslateCluster | pkg/adaptor/xds/v3/cluster.go:13-37 | Unsupported, needs EDS with no nodes, or translated with the nodes of its own assignment |
| Adaptor.TranslateClusterLoadAssignment | pkg/adaptor/xds/v3/cluster.go:89-147 | The nested loop with its skips computes the nodes |
| FileProvisioner.CacheIsUnionOfFiles | pkg/provisioner/xds/v3/file/types.go:161-211 | Over any run of writes, unreadable writes and removals with ids disjoint between files, the cache is the union of the last-wins maps of all current files |
| FileProvisioner.RepeatedRemovalIsSilent | pkg/provisioner/xds/v3/file/types.go:186-203 | Removing a file again emits nothing and changes nothing |
| FileProvisioner.ManifestMeans | pkg/provisioner/xds/v3/file/types.go:221-258 | Resource by resource and in order, a file's manifest grows by the routes of a route configuration without an owner, by the upstream of a served cluster, and by nothing for any other resource |
| FileProvisioner.RouteInManifest | pkg/provisioner/xds/v3/file/types.go:223-224 | A route is in a file's manifest if and only if one of its route configurations gives it |
| FileProvisioner.FileHolds | pkg/provisioner/xds/v3/file/types.go:161-211 | After any run a file holds what its last readable write says, and nothing if a removal came later or there was none |
| FileProvisioner.ResetsMean | pkg/provisioner/xds/v3/file/types.go:190-200 | Removing a file that fed upstreams by EDS updates each of them, in order, to itself without nodes |
| FileProvisioner.FileStep | pkg/provisioner/xds/v3/file/types.go:285-330 | One event of one file keeps the cache the union, the other files' objects untouched |
| FileProvisioner.ReplacePart | pkg/provisioner/xds/v3/file/types.go:285-330 | In a union of parts without common ids, replacing one part takes out exactly what it held and puts in exactly what it holds |
| FileProvisioner.Provisioner.HandleFileEvent | pkg/provisioner/xds/v3/file/types.go:161-211 | State, batch and EDS bookkeeping after a write or removal, the node resets of EDS-fed upstreams included, and no batch when there is no event |
| FileProvisioner.Provisioner.GenerateFileEvents | pkg/provisioner/xds/v3/file/types.go:285-330 | The new manifest is recorded under the file and the events are those of the diff |
| FileProvisioner.Provisioner.ReadManifest | pkg/provisioner/xds/v3/file/types.go:213-258 | Resources that fail to translate are left out one by one |
| Iptables.InboundPolicy | cmd/iptables/iptables.go:82-120 | After a successful setup a packet entering PREROUTING is redirected to the inbound capture port exactly when it is TCP and either the include list is "*" and the port is neither 22 nor excluded, or the port is listed; otherwise nothing happens to it |
| Iptables.OutboundPolicy | cmd/iptables/iptables.go:122-152 | A packet entering OUTPUT is redirected to the proxy port exactly when it is TCP, neither owner rule spares it and the outbound lists select its port |
| Iptables.SetupSucceedsIff | cmd/iptables/iptables.go:98-120 | On a table without our chains, setup goes through exactly when iptables reads every operand and the inbound list is empty or names a port |
| Iptables.CommasOnlyFails | cmd/iptables/iptables.go:98-120 | The inbound list "," makes setup fail for every reading of ports |
| Iptables.PortFieldsAreFields | cmd/iptables/iptables.go:165-181 | The ports of a list are exactly its non-empty comma-free fields |
| Iptables.CleanupUndoesSetup | cmd/iptables/clenaup-iptables.go:33-44 | After setup, complete or stopped at any command, cleanup leaves the table found before, with OUTPUT emptied: no rule and no chain of ours remains, everything foreign stays |
| Iptables.CleanupRestoresIff | cmd/iptables/clenaup-iptables.go:33-44 | Cleanup gives back the very table setup found if and only if its OUTPUT chain was empty |
| Iptables.SetupOverlays | cmd/iptables/iptables.go:82-163 | Wherever setup stops it has added at most one jump to PREROUTING and only our chains, and no foreign chain has changed |
| Iptables.SetUpAndCleanUp | cmd/iptables/clenaup-iptables.go:33-44 | Both programs in sequence on one table: setup succeeds under the stated condition, and the table is restored but for OUTPUT either way |
| Iptables.IptablesConstructor.Run | cmd/iptables/iptables.go:82-96 | The table and the outcome are those of the setup commands run until one fails |
| Iptables.IptablesConstructor.InsertInboundRules | cmd/iptables/iptables.go:98-120 | Appends exactly the inbound rules of the configuration |
| Iptables.IptablesConstructor.InsertOutboundRules | cmd/iptables/iptables.go:122-145 | Appends exactly the outbound rules |
| Iptables.IptablesConstructor.InsertSkipRules | cmd/iptables/iptables.go:147-152 | Appends the two owner rules |
| Iptables.IptablesConstructor.ExecuteCommand | cmd/iptables/iptables.go:154-163 | Runs the built commands in order and stops at the first failure |
| Iptables.Builder.BuildV4 | cmd/iptables/iptables_test.go:69-83 | A chain is created once, by first use, before all rules go in in order |
| Iptables.NewChainsByFirstUse | cmd/iptables/iptables_test.go:69-83 | Where a chain is used first, the chains created before it are exactly the user chains used before |
| Iptables.SplitPorts | cmd/iptables/iptables.go:165-171 | Returns exactly the non-empty fields, none for the empty text |
| Iptables.FilterEmpty | cmd/iptables/iptables.go:172-181 | Keeps the order and drops only empty strings |
| Iptables.NonEmptyAppend | cmd/iptables/iptables.go:172-181 | Fields are kept or dropped one by one and in order |
| Iptables.RemoveOldChains | cmd/iptables/clenaup-iptables.go:33-37 | Runs the cleanup commands with failures ignored |
| Iptables.FlushAndDeleteChains | cmd/iptables/clenaup-iptables.go:39-44 | Flushes and deletes each chain in turn, whatever fails |
| Strings.SplitThenJoin | pkg/etcdv3/kv.go:122-123 | The parts of a split have no separator and join back to the input |
| Strings.JoinThenSplit | pkg/etcdv3/kv.go:122-123 | Separator-free parts survive joining and splitting |
| Strings.SplitFields | cmd/iptables/iptables.go:169-169 | Splitting yields exactly the maximal separator-free stretches |
| Strings.RemoveAllMeans | pkg/adaptor/xds/v3/route.go:107-107 | Replacing by nothing takes out the occurrences from the left, one after the other, and nothing else |
| Strings.DecimalReadsBack | pkg/provisioner/xds/v3/grpc/types.go:367-367 | Decimal text reads back as its number and has no leading zero |
| Strings.HexReadsBack | pkg/id/idgen.go:13-14 | Hexadecimal text reads back as its number and has no leading zero |

## Left out

- Sidecars.Sidecar.Run: unordered delivery of batches and of watch pushes by goroutines; in-order arrival is assumed, and Interleaving covers the shared accesses but not reordered batches.
- WatchStart.ToldIff: one watch per stream, and no cancel or close while pushes go on; several ids of a stream, cancels and closes are steps of WatchModel. The response and the pushes reach the client over separate paths, and their order is not modelled.
- Iptables.Builder.BuildV4: the rule builder of istio is not part of this model beyond the command order its tests fix.
- Iptables.Exec: the kernel's refusal of cyclic chains, and the reading of matches other than the generator's own.
- GrpcProvisioner.Provisioner.TrySendRds: the order and repetition of resource names in requests; names are compared as sets, as the names of acknowledgements are.
- FileProvisioner.Provisioner.HandleFileEvent: files with EDS resources are excluded from writes, because their merge indexes by the wrong loop variable and convergence does not hold (pkg/provisioner/xds/v3/file/types.go:227-251).
- FileProvisioner.Provisioner.ReadManifest: EDS resources are left out here for the same reason.
- EtcdServer.EtcdV3.Range: the revision in response headers, and the copy of the shared empty response.
- EtcdServer.EtcdV3.OnCreateRequest: the random watch id is a parameter, so a collision of random ids is one more refused create.
- Adaptor.TranslateVirtualHost: the translation of header and query matchers into expressions is an input, because their meaning rests on lua-resty-expr.
- Adaptor.PatchRoutes: what the added condition means when APISIX evaluates it; no claim of exact port matching is made.
- Sidecars.Sidecar.Revision: 64-bit wrap-around of the revision.
- Diff.CompareLists, Cache.ObjectStore.List and the other generic members stand for the route and the upstream twins in the Go code.
- Nil and empty slices coincide, as the upstream cache normalises them (pkg/cache/upstream.go:34-37).
- CRC-32 itself: ids are the hexadecimal form of an arbitrary checksum.
- gRPC, HTTP gateway, websocket proxy, dialing, reconnects, timeouts and shutdown.
- Protobuf and JSON encoding and generated validation code.
- Logging, command line, configuration validation, precheck, version, the APISIX process runner, file watching, charts and manifests.
- `Put`, `DeleteRange`, `Txn` and `Compact`: constant replies.
