# Sealer verification models

Dafny models of the kernels of sealer that carry real correctness arguments, with proofs of what they keep and of
exactly when they do what their documentation says. `dafny verify dfyconfig.toml` checks everything.

| files | what is modelled | form |
|---|---|---|
| `Distribution`, `DistributionProgress` | the peer-to-peer image distribution: one coordinator, any number of receivers, any number of images | transition system over arbitrary interleavings |
| `Overlay`, `OverlayWriter`, `OverlayRoundTrip`, `OverlayForeign`, `FileSystem`, `Paths` | the tar writer and reader with overlay whiteouts and opaque directories, over unbounded trees | classes `TarWriter`, `Header` and `Disk` proved against functions, and theorems about those |
| `Hosts`, `RoleIndex` | `Diff`, `RemoveIPs`, the worker partition; the role index, whose entries share the arrays of the host groups | methods with the source's loops, class `InfraDriver` over an explicit memory of arrays |
| `Membership`, `MembershipRuns`, `MembershipOutcomes`, `Sorting` | install, scale-up and scale-down of a cluster as effects on every host's load-balancer tables and on where the registry runs | class `Remote`, then theorems over all runs |
| `ClusterDefaults`, `Clusterfile` | the defaulting pass over a cluster, decoding a document stream, saving it | classes `Cluster` and `ClusterFile` |
| `Addresses`, `Subnets`, `ServiceFill`, `Decimal`, `Text` | IPv4 text and integers, range enumeration, indexing into a CIDR, the service addresses | functions, and methods for the loops |
| `Interrupt`, `InterruptProgress` | chained once-only handlers called from any number of threads | transition system |
| `Cipher`, `Base64` | PKCS#7, cipher block chaining, base64 | functions, and methods for the block loops |
| `Containers` | the container reconcile loop over a provider that may fail at every call | class `ApplyProvider` |
| `FileWriter` | the buffered writer over a file whose every operation may fail; `PutContent` | classes `FileWriter` and `Driver` |
| `SaveNames`, `References` | the two image-name canonicalisers and the duplicate check of the image saver | functions, and a method for the loop |

Each class method is proved equal to a function of the old state; the theorems are about sequences of those functions.
Outcomes of remote commands, HTTP requests, file operations, provider calls, clocks and the order of threads are
parameters or free choices; a host may answer one command of an operation and miss the next. Every theorem holds for
all of them, apart from what its row or its contract says it assumes. An address is represented by its canonical text.

## What does not hold as written, and when exactly it does

* A served `/connect` need not precede the first token: the coordinator ignores a failed request and goes on. It precedes
  the token if and only if the request of that round did not fail (`ConnectPrecedesToken`; a run: `ConnectMayBeMissed`).
* A scale-down asks each master to delete whether it answers, and makes one runtime call for those that do and one for
  those that do not, both against the original host list.
  * A remaining worker's API server table is right if and only if the targets were not partly answering
    (`ScaleDownExactly`; a run: `MixedDeletionLeavesDeletedMaster`). Such a run may even delete every master
    (`EveryMasterMayGo`).
  * With a highly available local registry, whose removal may have reached a host that then misses the check, a remaining
    worker's registry table is right if and only if no master was deleted, or one of those answered and one remains
    (`ScaleDownRegistryExactly`; a run: `SilentDeletionLeavesRegistryStale`). Both tables are right if and only if every
    target answered (`HighlyAvailableExactly`).
* `Reconcile` of the registry only adds when it should both add and remove; its result is the desired set if and only
  if one of the two changes is empty (`ReconcileTracksReality`; a case: `ReconcileMissesDesired`).
* `Diff` repeats an address that stands more than once in the new list; it gives new minus old exactly when the new
  list repeats none of the old addresses (`DiffAddsExactly`; a case: `DiffAddsOldAddress`).
* The role index of the driver starts each entry as the address list of the role's first group, not as a copy, and
  appends to it. Where that list has spare capacity, roles with the same first group (a host with roles `[node, db]`, say)
  write over each other. An entry is the linear scan if and only if the last role to write each spare slot, up to the
  moment the entry got an array of its own, wanted the same address (`IndexExactly`); with room for all lists the whole
  index is right if and only if no two roles clash (`RoomyIndexExactly`; a cluster: `SharedArrayOverwritten`).
* A scale-down of containers that fails part way leaves addresses listed whose containers are gone. A later `Apply` with
  larger counts then reports success with too few containers. A successful `Apply` has the wanted number of live
  containers if and only if the part of each list that stays had all of its containers before (`ApplyLiveExactly`; a run:
  `LostContainerStaysListed`). Repeating the same counts after failures does reach them (`RetriesReachLiveCounts`), and
  so does every history whose counts change only after a success (`PatientReachesLiveCounts`).
* `TransferToIPList` loops for ever on some ranges, because the big-integer bytes drop leading zeros or gain a byte.
  It ends exactly for the ranges of `Ends`: empty ones, and those from 0.255.255.255 to 255.255.255.254 at most
  (`TransferToIPList`, `LoopNeverEnds`).
* An application whose launch section has an empty command list is accepted, but its saved form is refused on the next
  load. Saving and loading is the identity exactly when there is none (`SaveThenLoad`; a file: `EmptyLaunchIsLost`).
* The comments of `Chain` and `Signal` promise that the parent's final function runs. For a chained handler it never
  does, because the parent's `Close` has used up its `once`: a final function has run exactly when a `Signal` on its own
  handler entered first and completed (`FinalExactly`; a run: `SignalIsNotPassedOn`).
* `AesDecrypt` panics if and only if the text is base64 of at least a block whose bytes are not whole blocks, or whose last
  decrypted byte exceeds their number (`PanicsExactly`; cases: `WrongLengthPanics`, `OneBlockPanics`).
* `PutContent` ends the process if and only if its truncation fails and the close after it works, or the copy fails, or the
  flush after the copy, the second sync or the final close fails (`PutExactly`).
* With a configured registry that has a slash or does not look like a domain, the full name of an image without a domain of
  its own parses to another name, and only then (`ReparseExactly`; a case: `RegistryPathIsLost`).
* The raw local tag name of a reference denotes the same image if and only if the name ends in a tag or has no colon after
  its domain (`RawNamesTheSameImage`; a name: `RawOfTaggedPath`).

## Model

| member | source | states |
|---|---|---|
| Distribution.RunInv | pkg/imagedistributor/p2p_distributor.go:155-214 | the protocol invariant holds in every state of every interleaving, for any number of hosts and images |
| Distribution.BarrierHolds | pkg/imagedistributor/p2p_distributor.go:421-455 | when the polling round finds its counter equal to the number of hosts, every host has reached the expected stage |
| Distribution.TwoBarriers | cmd/dist-receiver/main.go:94-132 | no receiver passes its first wait until all announced stage 1, and none exits until all announced stage 2 |
| Distribution.TokenConservation | cmd/dist-receiver/main.go:96-132 | two tokens per completed round and receiver, one more while inside a round, none pending at exit |
| Distribution.RoundIsolation | pkg/imagedistributor/p2p_distributor.go:86-103 | no receiver of a round starts before all receivers of the round before have exited |
| Distribution.CounterNeverOvercounts | pkg/imagedistributor/p2p_distributor.go:421-455 | the unsynchronised counter is never above the number of hosts that reached the stage |
| Distribution.StagesOnlyGrow | cmd/dist-receiver/main.go:244-250 | stage, tokens and rounds of every receiver never decrease between launches |
| Distribution.ConnectPrecedesToken | cmd/dist-receiver/main.go:252-262 | once its first token is on the way, a receiver was served its peer list if and only if the request since the last launch did not fail |
| Distribution.ConnectMayBeMissed | pkg/imagedistributor/p2p_distributor.go:182-195 | a run in which a receiver goes on without a peer list |
| DistributionProgress.FaultlessRunsFinish | pkg/imagedistributor/p2p_distributor.go:86-103 | for any number of images and hosts, every run without a lasting failure, wherever it stands and however many `/stage` and `/connect` requests failed in it, can be continued to the end, where every host has gone through one round per image and taken two tokens in each |
| DistributionProgress.SomeRunFinishes | pkg/imagedistributor/p2p_distributor.go:131-215 | such a run exists from the start |
| DistributionProgress.SuccessfulRoundAdvances | pkg/imagedistributor/p2p_distributor.go:202-214 | in every reachable state in which all sessions succeeded, the only step of the joining coordinator makes the round one larger |
| DistributionProgress.BrokenSessionAborts | pkg/imagedistributor/p2p_distributor.go:204-206 | when all sessions have ended and one is broken, its only step is to give up |
| DistributionProgress.NextRoundStarts | pkg/imagedistributor/p2p_distributor.go:86-103 | between rounds the next image is launched while one is left, and the whole is finished when none is |
| DistributionProgress.IncrementsMayOverwrite | pkg/imagedistributor/p2p_distributor.go:428-440 | two increments of the counter that interleave count as one |
| DistributionProgress.AnythingMayFail | pkg/imagedistributor/p2p_distributor.go:155-200 | during a round any process may die, any session break and any request fail |
| DistributionProgress.CoordinatorMayFail | pkg/imagedistributor/p2p_distributor.go:131-180 | the coordinator may fail before it launches a round and after the first barrier |
| Paths.ValidExactly | utils/archive/compress.go:417-422 | the guard on member names accepts the name written for a path exactly when no component has a backslash and none but the last ends in two dots |
| Paths.ValidRelPathExactly | utils/archive/compress.go:417-422 | of any text: accepted exactly when it is not empty, has no backslash, does not begin with a slash and has no "../" in it |
| Paths.ResolveAppend | utils/archive/compress.go:347-350 | the components of a name are taken one after the other |
| Paths.ResolveOne | utils/archive/compress.go:349 | empty components and single dots go nowhere, double dots to the parent, any other name down |
| Overlay.Disk.RemovePreviousFiles | utils/archive/compress.go:293-306 | removes what stands at the target, or at the name a whiteout marks |
| Overlay.Disk.ApplyWhiteout | utils/archive/compress.go:182-206 | a marked name becomes an opaque flag or a whiteout device, any other name is left to the caller |
| Overlay.Disk.Decompress | utils/archive/compress.go:309-414 | the loop over the members, with early exits and deferred directory times, computes the function the theorems are about |
| OverlayWriter.WriteWhiteout | utils/archive/compress.go:141-180 | how the header of a whiteout changes in place, and the extra header of an opaque directory |
| OverlayWriter.TarWriter.WalkEntries | utils/archive/compress.go:208-291 | the walk appends the headers of the whole tree in order and changes nothing before them |
| OverlayRoundTrip.GraftForest | utils/archive/compress.go:309-414 | extracting the members of a forest replaces each of its names by exactly its subtree and keeps everything else |
| OverlayRoundTrip.RoundTrip | utils/archive/compress.go:208-414 | for every tree without reserved names and every destination reached through directories only: extraction of the written stream succeeds if and only if no name has a backslash and no directory with entries (or an opaque mark) ends in two dots; it then returns the total bytes of the regular files and leaves the destination with each top-level name replaced by exactly that subtree, the missing directories down to it made with mode 0755, and everything else as it was; a failed one reports no bytes |
| OverlayRoundTrip.ExtractionIsIdempotent | utils/archive/compress.go:293-306 | extracting the same stream again succeeds and changes nothing but the times of the directories leading to the destination |
| OverlayRoundTrip.TimesRestored | utils/archive/compress.go:403-413 | the final loop gives every listed directory its archived time and touches nothing else |
| OverlayRoundTrip.DirListForestExact | utils/archive/compress.go:364-380 | the list of deferred times names exactly the directories of the tree, each with its archived time |
| OverlayRoundTrip.ReservedNamesAreNotCarried | utils/archive/compress.go:182-206 | a regular file whose name begins with the whiteout prefix does not arrive as that file |
| OverlayForeign.WrittenMarkers | utils/archive/compress.go:141-180 | the names, type and mode under which a whiteout and an opaque directory are written |
| OverlayForeign.FileMakesParents | utils/archive/compress.go:373-399 | a regular file is written with its mode, time and content even below missing directories, which are made with mode 0755; nothing else changes |
| OverlayForeign.DirectoryMakesParents | utils/archive/compress.go:364-371 | a directory below missing ones is made with all of those in its own mode, and listed for its time |
| OverlayForeign.MarkerHides | utils/archive/compress.go:182-206 | a member `.wh.x` of any type replaces all of x by a whiteout device with its owner, and drops the content |
| OverlayForeign.OpaqueMarkerMarks | utils/archive/compress.go:182-206 | `.wh..wh..opq` marks the directory it stands in and changes nothing else, or fails without that directory |
| OverlayForeign.OtherTypesOnlyClear | utils/archive/compress.go:363-400 | a member of another type removes what stood at its name and puts nothing there |
| OverlayForeign.StopsAtRefusedName | utils/archive/compress.go:340-345 | the first refused name ends the extraction: what came before it stays, without directory times, and nothing after it is looked at |
| OverlayForeign.TimesNeedPaths | utils/archive/compress.go:403-411 | the last loop works exactly when every listed path is still there |
| OverlayForeign.FailureReportsNothing | utils/archive/compress.go:309-414 | a failed extraction reports no bytes, wherever it failed |
| Hosts.IsInIPList | utils/net/iputils.go:171-178 | true exactly for members of the list |
| Hosts.RemoveIPs | utils/net/iputils.go:207-214 | the list without the given addresses, in order |
| Hosts.MinusIn | utils/net/iputils.go:207-214 | what remains is exactly what is in the list and not among the given addresses |
| Hosts.Diff | utils/strings/strings.go:175-194 | the three loops over the toggled map give the additions and the removals, in order |
| Hosts.DiffAddsExactly | utils/strings/strings.go:175-194 | the additions are new minus old exactly when no old address is repeated in the new list |
| Hosts.DiffAddsOldAddress | utils/strings/strings.go:180-186 | an old address listed twice is reported as added |
| Hosts.AddedCounts | utils/strings/strings.go:180-186 | how often each address is reported as added: once less than the new list has it when the old one has it too |
| Hosts.MinusAppend | utils/net/iputils.go:207-214 | removing works on each part of a list by itself, so order and repetitions stay |
| Hosts.AllIPsAppend | pkg/infradriver/ssh_infradriver.go:77-79 | the host list is the lists of the groups one after the other, repetitions included |
| Hosts.AllIPsOfGroup | pkg/infradriver/ssh_infradriver.go:77-79 | one group gives its list |
| RoleIndex.NewInfraDriver | pkg/infradriver/ssh_infradriver.go:63-119 | a driver exists exactly when some host is given, and it indexes the cluster's groups |
| RoleIndex.InfraDriver.constructor | pkg/infradriver/ssh_infradriver.go:76-119 | the host list is that of the groups, the host index is right, and the role index is what its appends leave in the arrays of the groups, whatever their capacities |
| RoleIndex.InfraDriver.GetHostIPListByRole | pkg/infradriver/ssh_infradriver.go:152-154 | reads the entry of the role out of those arrays: always hosts of the cluster, as many as the linear scan finds, and the scan itself when no two roles clash |
| RoleIndex.InfraDriver.GetRoleListByHostIP | pkg/infradriver/ssh_infradriver.go:156-158 | the roles of the last group that lists the address |
| RoleIndex.IndexExactly | pkg/infradriver/ssh_infradriver.go:104-115 | for all groups and capacities: the entry of a role is the linear scan if and only if the last writer of each spare slot of its window, until the entry moved to its own array, wanted the same address there |
| RoleIndex.IndexAgrees | pkg/infradriver/ssh_infradriver.go:104-115 | the index is the scan for every role when no two roles that start with the same group want different addresses in a spare slot of its array |
| RoleIndex.RoomyIndexExactly | pkg/infradriver/ssh_infradriver.go:104-115 | with room for every list, the index is the scan for every role if and only if no two roles clash |
| RoleIndex.OneRoleEachAgrees | pkg/infradriver/ssh_infradriver.go:104-115 | with one role per group the index is the scan, whatever the capacities |
| RoleIndex.FullArraysAgree | pkg/infradriver/ssh_infradriver.go:104-115 | with no spare capacity the index is the scan, whatever the roles |
| RoleIndex.SharedArrayOverwritten | pkg/infradriver/ssh_infradriver.go:106-114 | two roles of one group with spare capacity, each extended by another group: the first is read back with the address of the second |
| RoleIndex.InfraDriver.WorkerIPList | pkg/cluster-runtime/utils.go:29-46 | over every driver the worker partition writes inside its array only, and holds the hosts that are not among the masters read from the index, in order, then empty slots |
| Hosts.RolesListTheHost | pkg/infradriver/ssh_infradriver.go:105-118 | the roles recorded for a host list that host |
| Hosts.RolesOfLast | pkg/infradriver/ssh_infradriver.go:116-118 | the last group that lists an address gives its roles |
| Hosts.RolesOfNobody | pkg/infradriver/ssh_infradriver.go:116-118 | an address in no group has no roles |
| Hosts.GetIPSByRole | types/api/v2/cluster_types.go:169-180 | the linear scan of the groups that list the role |
| Hosts.ByRoleAppend | types/api/v2/cluster_types.go:169-180 | the scan of a list of groups is the scans of its parts in order |
| Hosts.ByRoleOfGroup | types/api/v2/cluster_types.go:169-180 | a group that lists the role once gives all of its addresses, one that does not gives none |
| Hosts.GetWorkerIPList | pkg/cluster-runtime/utils.go:29-46 | never writes outside its array, and fills it with the non-master hosts in order followed by empty slots |
| Hosts.WorkersFillTheList | pkg/cluster-runtime/utils.go:29-46 | there is no empty slot exactly when each master occurs once among the hosts |
| Sorting.SortIsOrderedPermutation | pkg/runtime/kubernetes/utils.go:189-226 | the sorted server list is ordered and a permutation |
| Sorting.SortByContent | pkg/runtime/kubernetes/utils.go:189-226 | lists with the same content are pushed as the same server list |
| Sorting.LessEqExactly | pkg/runtime/kubernetes/utils.go:196 | the order is byte-wise: a prefix first, otherwise by the first place where two texts differ |
| Membership.Remote.ConfigureKubeLvs | pkg/runtime/kubernetes/utils.go:189-226 | every client that answers gets the master endpoints on port 6443, every other host keeps its table, and it succeeds exactly when there is a master and all clients answer |
| Membership.Remote.ConfigureRegistryLvs | pkg/registry/local.go:172-224 | the same for the registry endpoints, with a second command for the alias of the registry |
| Membership.Remote.ReconcileRegistry | pkg/registry/installer.go:69-104 | launches or cleans the registry on the differing hosts and returns the new host list |
| Membership.Remote.LaunchRegistry | pkg/registry/installer.go:106-121 | starts the registry on the hosts, in order, until one fails |
| Membership.Remote.CleanRegistry | pkg/registry/installer.go:242-250 | stops it, in order, until one fails |
| Membership.Remote.InstallRegistryOn | pkg/registry/local.go:119-170 | the registry side of adding hosts, in each registry mode |
| Membership.Remote.InstallCluster | pkg/cluster-runtime/installer.go:136-244 | the effect of an installation on tables and registry |
| Membership.Remote.ScaleDownKube | pkg/runtime/kubernetes/runtime.go:183-210 | the runtime's scale-down: tables of the remaining nodes only when a master goes, refusal to remove all masters |
| Membership.Remote.JoinKubeNodes | pkg/runtime/kubernetes/join_nodes.go:31-89 | joining nodes get the table before they join |
| Membership.Remote.ScaleUpCluster | pkg/cluster-runtime/scale.go:29-135 | the effect of a scale-up |
| Membership.Remote.ResetAndScaleDown | pkg/cluster-runtime/scale.go:207-240 | runtime first, then the registry configurator |
| Membership.Remote.ScaleDownCluster | pkg/cluster-runtime/scale.go:137-205 | registry first, then the reachable targets, then the unreachable ones against the same lists |
| Membership.Remote.CheckNodeSSH | pkg/cluster-runtime/utils.go:75-92 | the hosts that do not answer |
| MembershipRuns.EndpointsAreSortedHosts | pkg/runtime/kubernetes/utils.go:189-226 | the pushed list is the ordered list of exactly the given hosts, however they were listed |
| MembershipOutcomes.EndpointsNameHosts | pkg/runtime/kubernetes/utils.go:194-201 | the i-th entry of a table is the i-th host in order, a colon and the port; a host's entry is in it if and only if the host is in the list, and hosts listed once have one entry |
| MembershipOutcomes.WorkersBalanceOverMasters | pkg/runtime/kubernetes/utils.go:189-226 | after every run without a mixed deletion each worker's table has one entry `m:6443` for every current master m, and no other |
| MembershipOutcomes.WorkersBalanceOverRegistries | pkg/registry/local.go:172-224 | after every run in which the masters to delete answer, the same for the registry tables of a highly available registry, and the registry runs exactly on the masters |
| MembershipOutcomes.SucceedsExactly | pkg/cluster-runtime/scale.go:29-240 | every allowed installation, scale-up or scale-down succeeds if and only if each of its steps works, every host answers the commands sent to it, and each runtime call of a scale-down leaves a master |
| MembershipOutcomes.HealthyOperationsSucceed | pkg/cluster-runtime/installer.go:136-244 | when nothing fails every allowed operation succeeds, except a scale-down that names all masters |
| MembershipOutcomes.RegistryCommandsStop | pkg/registry/installer.go:106-121 | starting or stopping the registry takes effect on the hosts before the first one that fails |
| MembershipOutcomes.SingleRegistryStays | pkg/cluster-runtime/installer.go:172-186 | over all runs without high availability, none with a mixed deletion: the registry runs on the first master alone, or nowhere when it is external, and no host has a registry table |
| MembershipOutcomes.OnlyWorkersHaveTables | pkg/registry/local.go:141-170 | over all runs, in every registry mode, no host has a table that was never a worker |
| MembershipRuns.ReconcileTracksReality | pkg/registry/installer.go:69-104 | a successful `Reconcile` returns exactly the hosts where the registry runs; these are the desired ones if and only if it did not have to add and remove at once |
| MembershipRuns.ReconcileMissesDesired | pkg/registry/installer.go:84-92 | replacing one host by another leaves the registry on both |
| MembershipRuns.InstallKeeps | pkg/runtime/kubernetes/runtime.go:89-134 | a successful installation establishes the table invariants |
| MembershipRuns.ScaleUpKeeps | pkg/runtime/kubernetes/runtime.go:150-181 | a successful scale-up keeps them |
| MembershipRuns.ScaleDownExactly | pkg/cluster-runtime/scale.go:137-205 | after a successful scale-down a remaining worker's table is the sorted list of the remaining masters if and only if the deleted masters were not partly reachable |
| MembershipRuns.ScaleDownRegistryExactly | pkg/registry/local.go:76-95 | with a highly available local registry, a remaining worker's registry table is the sorted list of the remaining masters if and only if no master was deleted, or one of those answered its check and one remains |
| MembershipRuns.HighlyAvailableExactly | pkg/cluster-runtime/scale.go:137-205 | both kinds of tables and the registry hosts are right after a successful scale-down if and only if every deleted master answered its check |
| MembershipRuns.MixedDeletionLeavesDeletedMaster | pkg/cluster-runtime/scale.go:187-202 | in every registry mode, a run after which the worker balances over a deleted master |
| MembershipRuns.SilentDeletionLeavesRegistryStale | pkg/registry/local.go:88-91 | a run after which the registry table still names a deleted master |
| MembershipRuns.EveryMasterMayGo | pkg/runtime/kubernetes/runtime.go:187-190 | a run that deletes every master although each call refuses to |
| MembershipRuns.KubeTablesTrackMasters | pkg/runtime/kubernetes/runtime.go:89-210 | in every registry mode, after every run of successful operations without a mixed deletion, a master remains and every worker balances over exactly the current masters |
| MembershipRuns.AllTablesTrackMasters | pkg/cluster-runtime/scale.go:29-240 | with a highly available local registry, after every run of successful operations in which the masters to delete answer their check, both tables of every worker and the registry hosts are exactly the current masters |
| ClusterDefaults.ConvertStringSliceToMap | utils/strings/strings.go:162-173 | the map of a list of `key=value` entries, later ones winning |
| ClusterDefaults.EnvMapExactly | utils/strings/strings.go:162-173 | a variable is there exactly when some entry sets it, and the last such entry gives its value |
| ClusterDefaults.Cluster.CheckAndFill | pkg/clusterfile/decoder.go:183-296 | the pass in place computes the function the theorems are about, and fails exactly when that has no value |
| ClusterDefaults.FillIsFixedPoint | pkg/clusterfile/decoder.go:183-296 | whenever the pass succeeds, running it again succeeds and changes nothing, including the order of the env list |
| ClusterDefaults.FilterIsKeyWise | pkg/clusterfile/decoder.go:212-231 | the prefix filter drops an entry exactly when it would drop its key |
| ClusterDefaults.ForeignExactly | pkg/clusterfile/decoder.go:214-225 | the twelve prefixes by which entries are dropped |
| ClusterDefaults.FilterCounts | pkg/clusterfile/decoder.go:212-230 | every entry that is kept is there as often as before |
| ClusterDefaults.FilledEnvironment | pkg/clusterfile/decoder.go:212-289 | as a map, the new environment is the user's variables without reserved prefixes, overridden by the derived ones, and the service CIDR used is the user's |
| ClusterDefaults.VariablesArePublished | pkg/clusterfile/decoder.go:233-289 | whatever the user's list contained, each of the twelve variables, by its name, has the value of its setting: `KubeSvcIP` and `DNSSvcIP` the two service addresses, each registry its domain, its port in decimal and its URL as domain, colon and port, `RegistryDomain`, `RegistryPort` and `RegistryURL` those of the active registry |
| ClusterDefaults.OnlyOursAreGenerated | pkg/clusterfile/decoder.go:212-289 | no generated variable survives from the user's list: each is there exactly when the setting it stands for is |
| ClusterDefaults.UserVariablesStay | pkg/clusterfile/decoder.go:212-289 | every variable whose name does not begin like a generated one keeps its value, and none is added |
| ClusterDefaults.DefaultsFillGapsOnly | pkg/clusterfile/decoder.go:183-296 | no setting of the user is overridden, and each missing one gets the documented default |
| Clusterfile.ClusterFile.DecodeOne | pkg/clusterfile/decoder.go:73-179 | one turn of the decode loop, for every kind of document and every error |
| Clusterfile.ClusterFile.DecodeAll | pkg/clusterfile/decoder.go:51-181 | the loop stops at the first error and otherwise applies every document in order |
| Clusterfile.CheckApplication | pkg/clusterfile/decoder.go:119-141 | the nested checks accept exactly the well-formed applications |
| Clusterfile.DecodeRefusesExactly | pkg/clusterfile/decoder.go:54-179 | a stream is refused exactly when it holds an unreadable document, a cluster whose defaulting fails, a config without path or data, or an application with a nameless configuration, a launch section without commands, or a file without data or path; documents of other kinds are skipped |
| Clusterfile.DecodeReads | pkg/clusterfile/decoder.go:73-179 | an accepted stream is read as the last cluster, defaulted, the last application, all configs and all plugins in order, and of each kubeadm part the last document of its kind |
| Clusterfile.ClusterFile.SaveAll | pkg/clusterfile/clusterfile.go:102-188 | the documents written, in order and under their conditions |
| Clusterfile.SavedInOrder | pkg/clusterfile/clusterfile.go:102-188 | in a saved file the cluster comes first, then the application, the configs, the plugins and the kubeadm parts |
| Clusterfile.SaveThenLoad | pkg/clusterfile/clusterfile.go:102-188 | for every decodable stream, decoding what is saved gives back exactly the same file, if and only if no launch section has an empty command list; otherwise it is refused |
| Clusterfile.SavedReload | pkg/clusterfile/clusterfile.go:102-188 | for every object, whatever its setters put there, what its saved form is read back as, or that it is refused |
| Clusterfile.SetClusterThenLoad | pkg/clusterfile/clusterfile.go:74-76 | a cluster that was set comes back defaulted, with the rest as it was, exactly when the defaulting succeeds |
| Clusterfile.SetApplicationThenLoad | pkg/clusterfile/clusterfile.go:78-80 | an accepted application that was set comes back as it is, exactly when it has no empty command list |
| Clusterfile.EmptyLaunchIsLost | pkg/clusterfile/decoder.go:302-308 | a file that loads and whose saved form does not |
| Addresses.AddrIs | utils/net/iputils.go:129-135 | the text of an address is its four octets in decimal, the most significant one first, with dots between them |
| Decimal.DigitTexts | utils/net/iputils.go:129-135 | the ten digits |
| Decimal.ItoaPositional | utils/net/iputils.go:129-135 | the last digit stands for the remainder by ten, those before it for the quotient |
| Addresses.ParsePrinted | utils/net/iputils.go:129-135 | parsing the dotted print of four bytes gives them back |
| Addresses.PrintParsed | utils/net/iputils.go:129-135 | every text that parses is the print of what it parses to |
| Addresses.BytesOfAddress | utils/net/iputils.go:151-154 | the big-integer bytes are the four octets exactly for addresses with a non-zero first octet |
| Addresses.NextAddr | utils/net/iputils.go:151-154 | the next address inside the range where no byte is lost or gained, with carries |
| Addresses.Enumerate | utils/net/iputils.go:115-122 | cut off after any number of steps, the loop has ended if and only if the range is one of `Ends` and the steps suffice, and then it holds the canonical prints of exactly a, a+1, ..., b in order |
| Addresses.TransferToIPList | utils/net/iputils.go:101-127 | the method computes the function of the next two rows |
| Addresses.TransferOfRange | utils/net/iputils.go:101-127 | for every range of two addresses: an error when it is empty; the prints of exactly a, a+1, ..., b with commas between them when the loop ends and has the steps; otherwise it is still running after any number of steps |
| Addresses.TransferOfOther | utils/net/iputils.go:101-116 | any other text is given back when it has no dash, and refused when it has one |
| Addresses.LoopNeverEnds | utils/net/iputils.go:117-122 | outside `Ends` the loop condition stays true after any number of iterations |
| Subnets.MaskIsClear | utils/net/iputils.go:216-227 | masking octet by octet clears the host bits of the whole number |
| Subnets.ClearExactly | utils/net/iputils.go:216-227 | clearing host bits gives the greatest multiple of the power of two that is not above the number |
| Subnets.ParseCIDRExactly | pkg/clusterfile/decoder.go:235 | exactly an address, a slash and a prefix length of at most 32 is read |
| Subnets.ContainsIsSameBlock | utils/net/iputils.go:222-224 | containment compares exactly the first p bits |
| Subnets.IndexExactly | utils/net/iputils.go:216-227 | an index of an aligned subnet is valid if and only if it is below 2^(32-p) and the sum has a non-zero first octet; the result is network + index with carries, inside the subnet |
| Subnets.ServiceIPsExactly | pkg/clusterfile/decoder.go:232-246 | for every CIDR text the two service addresses exist if and only if p is at most 28 and the network is 1.0.0.0 or above, and they are network + 1 and network + 10 |
| Subnets.ServiceIPsOnlyOf | pkg/clusterfile/decoder.go:234-246 | no other text gives service addresses |
| ServiceFill.FillExactly | pkg/clusterfile/decoder.go:205-246 | the pass fails exactly for an external registry without a domain and for a `SvcCIDR` from which no addresses can be derived |
| ServiceFill.ServiceFillExactly | pkg/clusterfile/decoder.go:232-249 | with a service CIDR given, the defaulting pass succeeds exactly for prefixes of at most 28 bits over networks of 1.0.0.0 or above (and a named external registry), and publishes network + 1 as `KubeSvcIP` and network + 10 as `DNSSvcIP` |
| Interrupt.PlayInv | pkg/debug/interrupt.go:43-104 | the invariant of handlers and calls holds in every interleaving, for chains of any depth |
| Interrupt.ExactlyOnce | pkg/debug/interrupt.go:62-86 | each notify function runs at most once, and after a call on a handler has returned its own and all its ancestors' have run |
| Interrupt.FinalExactly | pkg/debug/interrupt.go:73-83 | over the actions: a final function has run, and once, exactly when a `Signal` call on its own unchained handler was the one let into the once and that completed; the process has exited exactly when that happened on a handler without a final |
| Interrupt.EntersOnlyAfterSignal | pkg/debug/interrupt.go:73-83 | without a `Signal` call on the handler itself none is let in |
| Interrupt.NeverStuck | pkg/debug/interrupt.go:62-104 | while a call is pending and the process has not exited, some action is possible: no deadlock |
| Interrupt.BoundedWork | pkg/debug/interrupt.go:62-104 | only boundedly many actions happen between calls |
| Interrupt.CallsReturn | pkg/debug/interrupt.go:62-104 | from every reachable state internal actions alone, at most as many as the work left, lead to a state where no call is pending or the process has exited |
| Interrupt.SignalIsNotPassedOn | pkg/debug/interrupt.go:39-48 | a run in which `Signal` on a child returns and the parent's final function never ran |
| InterruptProgress.CallsCanBeMade | pkg/debug/interrupt.go:62-104 | while the process lives each call can be made on every handler, and the function given to `Run` can end at any time and is followed by its `Close` |
| InterruptProgress.RunsReturn | pkg/debug/interrupt.go:88-104 | from every reachable state, critical sections included, boundedly many actions without a new call lead to a state where every call has returned or the process has exited |
| InterruptProgress.NotifiesInOrder | pkg/debug/interrupt.go:62-68 | the notify functions of a handler run in the order in which they were given |
| InterruptProgress.FinalIsLast | pkg/debug/interrupt.go:73-83 | a final function, and the exit that stands for a missing one, come after all notify functions of their handler |
| Base64.TextRoundTrip | utils/hash/aes.go:41-52 | decoding the base64 text of any bytes gives them back |
| Base64.AlphabetIs | utils/hash/aes.go:41-52 | the alphabet of RFC 4648 |
| Base64.LettersAre | utils/hash/aes.go:41-52 | exactly the letters of the alphabet are read, each as its place in it |
| Base64.EncodedGroup | utils/hash/aes.go:41 | four letters carry the 24 bits of three bytes |
| Base64.EncodedEnd | utils/hash/aes.go:41 | one or two last bytes give their bits followed by zeros, and the padding |
| Base64.EncodedTail | utils/hash/aes.go:41 | the bytes after whole groups are encoded like a text of their own |
| Base64.QuantaExactly | utils/hash/aes.go:46-49 | a text without newlines is read exactly when it is whole groups of letters with at most two signs of padding, and then has three bytes for each group less one for each sign |
| Base64.NewlinesAreIgnored | utils/hash/aes.go:46-49 | newlines may stand anywhere |
| Cipher.ChainRoundTrip | utils/hash/aes.go:38-64 | decrypting block chaining undoes it for every block permutation |
| Cipher.EncryptedBlock | utils/hash/aes.go:38-40 | each block is encrypted after the exclusive or with the encrypted block before it, the first one with the initial vector |
| Cipher.DecryptedBlock | utils/hash/aes.go:62-64 | each block is decrypted and combined with the encrypted block before it |
| Cipher.XorByteBits | utils/hash/aes.go:38-64 | each bit of the exclusive or is set exactly when the two bits differ |
| Cipher.PadRoundTrip | utils/hash/aes.go:69-79 | padding adds 1 to 16 bytes up to a whole block, and removing it gives the text back |
| Cipher.PadExactly | utils/hash/aes.go:69-73 | the text is followed by 1 to 16 bytes that each hold their number |
| Cipher.EncryptBlocks | utils/hash/aes.go:38-40 | the block loop computes the chained encryption |
| Cipher.DecryptBlocks | utils/hash/aes.go:62-64 | the block loop computes the chained decryption |
| Cipher.AesEncrypt | utils/hash/aes.go:27-42 | pads, encrypts and encodes |
| Cipher.AesDecrypt | utils/hash/aes.go:44-67 | decodes, decrypts and unpads, with its errors and its panics |
| Cipher.DecryptEncrypted | utils/hash/aes.go:27-79 | `AesDecrypt(AesEncrypt(x))` is x for every byte string |
| Cipher.WrongLengthPanics | utils/hash/aes.go:58-64 | every encoded text longer than a block and not a whole number of blocks makes the decrypter panic |
| Cipher.PanicsExactly | utils/hash/aes.go:51-79 | decryption panics if and only if the decoded text has at least a block, and is not whole blocks or its last decrypted byte exceeds its length |
| Cipher.OpensExactly | utils/hash/aes.go:44-67 | an error exactly for text that is not base64 of at least a block; a result is the decrypted blocks without as many bytes as the last one says |
| Cipher.OneBlockPanics | utils/hash/aes.go:75-79 | one whole block whose last plain byte is above its length makes the decrypter panic |
| Containers.DecimalCount | pkg/infra/container/container.go:76-77 | the count text compared with a length reads back as that length |
| Containers.ApplyProvider.ApplyToJoin | pkg/infra/container/container.go:193-230 | creates containers until one fails |
| Containers.ApplyProvider.ApplyToDelete | pkg/infra/container/container.go:255-270 | removes recorded containers until one fails, skipping those already gone |
| Containers.ApplyProvider.ApplyResult | pkg/infra/container/container.go:152-191 | one role: lists change only after all its provider calls succeeded |
| Containers.ApplyProvider.ReconcileContainer | pkg/infra/container/container.go:120-150 | masters, then nodes, and the refusal to be left without a master |
| Containers.ApplyProvider.Apply | pkg/infra/container/container.go:61-81 | the dispatch of `Apply` without a deletion timestamp |
| Containers.ApplyReachesCounts | pkg/infra/container/container.go:61-81 | a successful `Apply` leaves host lists of exactly the wanted lengths; a scale-down keeps a prefix and a scale-up the whole of the old list |
| Containers.ZeroMastersRefused | pkg/infra/container/container.go:137-140 | a count of zero masters is refused before any call of the provider, unless there is nothing to do |
| Containers.NoServerNoApply | pkg/infra/container/container.go:68-73 | without annotations an unusable container server is an error, and nothing is done |
| Containers.NegativeCountPanics | pkg/infra/container/container.go:120-136 | a negative count ends the process before any call of the provider |
| Containers.OddCountKeepsList | pkg/infra/container/container.go:120-136 | a count that is no number leaves the list of its role alone |
| Containers.MastersComeFirst | pkg/infra/container/container.go:146-149 | the list of nodes changes only when that of the masters has its wanted length |
| Containers.ApplyLiveExactly | pkg/infra/container/container.go:152-191 | after a successful `Apply`, for each role: never more containers live than wanted, and as many as wanted if and only if the part of the list that stays had all its containers recorded before; none of the live ones was removed |
| Containers.RetriesReachLiveCounts | pkg/infra/container/container.go:61-81 | where what stays of the lists has its containers, any number of failing calls with the same counts followed by a healthy one leaves exactly the wanted numbers of live containers |
| Containers.PatientReachesLiveCounts | pkg/infra/container/container.go:61-81 | over every history of failed and successful calls whose numeric counts change only after a success, each success leaves exactly the wanted numbers of live containers, none of them removed |
| Containers.LostContainerStaysListed | pkg/infra/container/container.go:165-187 | a run with a partly failed scale-down after which a scale-up reports success, starts nothing and leaves one container too few |
| Containers.DeleteExactly | pkg/infra/container/container.go:255-270 | a completed deletion removed exactly the containers recorded for the listed addresses and forgot exactly those |
| Containers.NeverRemovedTwice | pkg/infra/container/container.go:255-270 | over every history of calls, failed ones included, no container is removed twice |
| Containers.ReapplyConverges | pkg/infra/container/container.go:61-81 | after any history, once provider calls succeed, `Apply` succeeds and the lists have the wanted lengths, and nothing was removed twice |
| FileWriter.FileWriter.WriteBuffered | pkg/image/save/filesystem.go:391-393 | the loop of the buffered write, with direct writes and sticky errors |
| FileWriter.FileWriter.Write | pkg/image/save/filesystem.go:383-394 | refused after close, commit or cancel; otherwise counts what the buffer took |
| FileWriter.FileWriter.Commit | pkg/image/save/filesystem.go:432-451 | flush and sync, then committed |
| FileWriter.FileWriter.Close | pkg/image/save/filesystem.go:400-418 | flush, sync and close, then closed |
| FileWriter.FileWriter.Cancel | pkg/image/save/filesystem.go:420-430 | closes the file and removes its name |
| FileWriter.NothingIsLost | pkg/image/save/filesystem.go:366-451 | over every sequence of calls and every pattern of faults, disk followed by buffer is the base content followed by the accepted bytes, and size is the start offset plus their number |
| FileWriter.CommitIsFinal | pkg/image/save/filesystem.go:432-451 | after a successful `Commit` the disk holds every accepted byte and no later write, commit or close changes it |
| FileWriter.CloseIsFinal | pkg/image/save/filesystem.go:400-418 | after a successful `Close`, for every base, sequence of calls and faults, the disk is the base and every accepted byte, the buffer is empty, and every later call is refused and changes nothing |
| FileWriter.CommitAndCloseExactly | pkg/image/save/filesystem.go:400-451 | exactly when `Commit` and `Close` succeed, and that they seal the writer only then |
| FileWriter.CancelExactly | pkg/image/save/filesystem.go:420-430 | exactly when `Cancel` succeeds, which is when the name is gone; it never touches the content |
| FileWriter.SealedRefuses | pkg/image/save/filesystem.go:383-394 | a closed, committed or cancelled writer refuses to write and to commit, and changes nothing |
| FileWriter.SmallWriteStays | pkg/image/save/filesystem.go:391-393 | a write that fits into the buffer of 4096 bytes does not touch the file |
| FileWriter.HealthyWriterStores | pkg/image/save/filesystem.go:383-451 | when nothing fails, any texts can be written, committed and closed, and the file then holds the base and the texts in order |
| FileWriter.Driver.PutContent | pkg/image/save/filesystem.go:154-169 | the result and the content of the one file it touches |
| FileWriter.PutThenGet | pkg/image/save/filesystem.go:133-169 | whenever `PutContent` reports success the file holds exactly the contents, and it does succeed when nothing fails |
| FileWriter.PutExactly | pkg/image/save/filesystem.go:154-231 | over the operation outcomes: exactly when `PutContent` ends the process, and exactly when it reports success |
| FileWriter.PutLeaves | pkg/image/save/filesystem.go:154-231 | what `PutContent` leaves behind whatever its result: nothing changed, the old content or an empty file, a prefix of the new contents, or no file after a failed copy |
| FileWriter.FailedCopyCrashes | pkg/image/save/filesystem.go:154-169 | a failed copy always ends the process |
| SaveNames.ReparseFullName | pkg/image/save/utils.go:56-113 | for every accepted name, parsing its full name without a registry argument, as the saver does, gives the same name |
| SaveNames.ReparseExactly | pkg/image/save/utils.go:72-113 | with any configured registry, the full name parses to the same name if and only if its registry can be read off it |
| SaveNames.RegistryPathIsLost | pkg/image/save/utils.go:72-91 | a registry with a path is not read back |
| SaveNames.FullNameInjective | pkg/image/save/utils.go:56-58 | equal full names of parsed names mean equal names |
| SaveNames.NamesToPull | pkg/image/save/save.go:72-92 | the loop with its set of full names yields the distinct parsed names that are not on disk, in order |
| SaveNames.PullsEachOnce | pkg/image/save/save.go:79-92 | each image not on disk is pulled exactly once, however it was written |
| SaveNames.PullsInOrder | pkg/image/save/save.go:79-92 | the images are pulled in the order in which their names first occur |
| SaveNames.PullsRefusesExactly | pkg/image/save/save.go:79-84 | the list is refused exactly when one of its names is |
| SaveNames.ParsesQualified | pkg/image/save/utils.go:72-113 | domain, repository and tag of a name with a domain of its own, whatever the configured registry |
| SaveNames.ParsesDefault | pkg/image/save/utils.go:83-89 | the two names of the default registry mean the same, and a repository there without a path is an official one |
| SaveNames.ParsesPlain | pkg/image/save/utils.go:72-113 | a plain name belongs to the configured registry, or is an official image of the default one; its tag is `latest` unless given |
| References.NormalizeOk | pkg/image/reference/util.go:44-67 | the normalised repository always has a tag separator, so splitting it never indexes past the end |
| References.ReparseCompleteName | pkg/image/reference/reference.go:31-45 | parsing a complete name keeps domain, repository, tag and repository with tag |
| References.ParsesQualified | pkg/image/reference/util.go:44-78 | the fields of `domain/repo:tag` |
| References.ParsesUntagged | pkg/image/reference/util.go:44-78 | the fields of `domain/repo`, whose tag is `latest` |
| References.ParsesPlain | pkg/image/reference/util.go:44-78 | the fields of a plain name, which belongs to `docker.io/sealerio` |
| References.ParsesPlainTagged | pkg/image/reference/util.go:44-78 | the fields of a plain name with a tag |
| References.ParsesPath | pkg/image/reference/util.go:44-78 | a path whose first part names no domain is a repository of `docker.io` as it stands |
| References.SpaceIsTrimmed | pkg/image/reference/reference.go:31-45 | white space around a name makes no difference; inside it, and nothing at all, is refused |
| References.CompleteNameInjective | pkg/image/reference/reference.go:78-80 | equal complete names denote the same image |
| References.RawNamesTheSameImage | pkg/image/reference/util.go:69-78 | the local tag name denotes the same image exactly when it is the name itself or the part after the domain has no colon |
| References.RawOfTaggedPath | pkg/image/reference/util.go:69-78 | `x.io/a:b/c` is tagged locally under a name of another image |

## Left out

- Liveness of the distribution protocol, the peer dialling behind `/connect`, IPFS, and the retransmission of HTTP requests.
- Symbolic links, hard links, extraction or writing with the root directory kept, ownership of regular files, set-user-id bits and
  times below one second, modification times and permission bits of whiteout devices, gzip, and errors of the operating system while writing an archive.
- IPv6 text, addresses and ranges; the order `SortIPList` gives to addresses.
- What happens to the lists a driver returned when a caller appends to one of them.
- Clusters in which an address has two roles; hosts appearing twice in a run of membership operations.
- Hosts of one address family only, and the environment, labels and taints of hosts, in the driver.
- Remote commands that take effect and then report a failure.
- etcd, kubeadm, certificates, hosts files and image loading within membership operations: each is one step that works or fails.
- YAML syntax, the split of a saved file into documents, the fields of a cluster that the defaulting pass does not read, and storing the file in the cluster's config map.
- Panics inside notify functions and handlers that call handlers of their own chain.
- AES itself, the fixed key and its derivation: any permutation of blocks with its inverse stands for it.
- `CleanUp` and the check of the container server beyond its yes or no; containers left behind by a failed creation.
- `Stat`, `List`, `Move`, `Delete` of the image store, reading with an offset, and cancelling after a commit.
- Containers.ApplyLiveExactly: like `RetriesReachLiveCounts` and `PatientReachesLiveCounts`, assumes that a new container gets an address neither recorded nor still listed; a provider that hands out again the address of a removed container that is still listed is not covered.
- Addresses.TransferToIPList: requires that a range with exactly two sides has no colon, because IPv6 ranges are left out; `steps` bounds a loop that need not end.
- Grouping of images by the concatenation of domain and repository, taints, version comparison, the remaining commands, progress output and generated code.
