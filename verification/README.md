# Licence proxy server: a verified model

The licence proxy server hands out product licences inside Kubernetes clusters. A *registry* keeps licences in one
binary heap per feature, next to a map by serial number, a usage book and a cache directory, and throws licences out
lazily, when a lookup finds them too close to their end. On a *hub*, the acquirer serves the features that each managed
cluster claims, ships the licences in a Secret and says when to come back. On a *spoke*, the syncer feeds that Secret
into a second registry with a shorter threshold, and requests that cannot be served add their features to the claim.

The project models these parts and proves what they are for: the lazy heaps answer like a scan of the store; any
number of renewals in time leave no gap on the spoke; any number of restarts recover everything that was live;
concurrent requests lose no claimed feature; once its claim has gone round, a request answered blank is granted
exactly if a licence for it has kept its place in the Secret; reconciling settles; the order of a Secret's entries
does not matter; callers of one registry never deadlock, and every interleaving of them is a run of single steps.

## How it is organised

- `licenses.dfy` licences, `Less`, thresholds, saturating `time.Until`, parsing and admission of licence files
- `heaps.dfy`, `license_queue.dfy` the heap of `container/heap` as functions, and `LicenseQueue` in place
- `registry_state.dfy` the registry as functions on its state; the two-index invariant; lookup against scan
- `registry.dfy` clock, directory, record book and registry as classes, proved against those functions
- `traces.dfy`, `conservation.dfy`, `usage.dfy`, `orphans.dfy`, `serial_reuse.dfy` whole runs of a registry
- `loader.dfy`, `recovery.dfy`, `restarts.dfy` loading a directory, one crash, and any number of lives
- `syncer.dfy`, `sync_order.dfy` the spoke's syncer, and its independence of map order
- `hub_pass.dfy`, `fixpoint.dfy`, `secrets.dfy`, `acquirer.dfy` the hub's reconciliation
- `renewal.dfy`, `renewal_example.dfy` hub and spoke together, and two rounds worked out
- `claim_codec.dfy`, `claims.dfy` the cluster claim and concurrent updates of it
- `request_state.dfy`, `server_runs.dfy`, `request.dfy`, `license_status.dfy` licence requests and licence statuses
- `delivery.dfy` what of a hub pass reaches a spoke
- `end_to_end.dfy`, `plan_example.dfy` a request from its blank answer on, and two features under one plan worked out
- `locking.dfy` callers interleaved at lock operations

Everything that the source updates in place is a class whose methods are proved equal to functions on a state value;
theorems about runs are about those functions. A step of a run (`Traces.Step`) is one call made under the registry's
lock. `locking.dfy` interleaves any number of callers at every lock operation and access, and proves that heaps, store
and files, whenever the lock is free, are those of such a run (`EveryInterleavingIsRun`); so theorems about what these
hold after every run apply to every interleaving, as `InterleavedIsMirrored` carries over for one of them. The usage
book is not guarded by that lock: theorems about it speak of recordings as steps of their own, and
`BookUnderInterleaving` says what any interleaving can leave in it.

Automatic induction is switched off everywhere, so every inductive proof is written out; some long proofs use `hide`
statements, which only take facts away from the verifier.

## Assumptions

- The clock never goes back. Every `time.Until` reads it anew, and the model keeps all those readings apart.
- Parsing is a function from bytes to a certificate that also fails outside the certificate's validity period, as
  certificate verification does with the current time. It always yields start, end and status `active`
  (vendor/go.bytebuilders.dev/license-verifier/lib.go:49-167), so the nil branches of `License.Less` are not modelled.
- Serial numbers determine when a licence ends (`expiry`), which is all the registry needs; `SharedSerialBreaksScan`
  says, for one run of two licences under one serial, exactly when the answers go wrong otherwise. Hub, renewal and
  restart need a serial to determine what a certificate says (`UniqueSerials`), though not its bytes: certificates are
  read from PEM, which ignores the text around a block
  (vendor/go.bytebuilders.dev/license-verifier/info/lib.go:185-191).
- File writes succeed. How the API server answers each call is a parameter; an update is taken only against the current
  version, and a creation only of a claim that does not exist.
- The remote licence service, the kind of its errors, the identity of the user and whether a cluster is a spoke are
  parameters. `container/heap` is Go's: `up`, `down`, `Push` and `Pop` are modelled from its documented algorithm.

## What the proofs say about the code

- The Secret has one entry per plan, and the hub acquires one feature at a time. Two licences under one plan, each for
  one of two claimed features, overwrite each other: the pass serves both features, the spoke gets the second licence
  only, and while both licences are good every later pass writes the same Secret, so that requests for the first
  feature stay blank (`ExampleServesIff`). A pass reaches the spoke for a feature exactly if some licence that it
  ships last under its plan lists the feature, or an entry left from before does (`PassReachesIff`); that decides
  whether an answered request is granted (`AnsweredIsGrantedIff`).
- At exactly the requeue instant a pass keeps the old licence (`RootKeptUntilDeadline`), and a requeue time that is not
  positive is no requeue for the controller runtime. So a pass without error that ends at or after that instant leaves
  renewal to resyncs (`RequeueIsEarlyEnough`, `ExampleAtRequeueInstant`); one that returns an error is retried with
  backoff, and its requeue time is ignored
  (vendor/sigs.k8s.io/controller-runtime/pkg/internal/controller/controller.go:463-477).
- A plan that is no longer shipped keeps its entry in the Secret. A sync of what a pass has left succeeds exactly if the
  licences shipped last parse and every such leftover does too (`SyncAfterPassIff`), so once the leftover's licence has
  ended every sync fails (`DroppedPlanBlocksSync`). A renewal under another plan is enough to get there
  (`ExampleSyncsIff`).
- A feature name with a comma never becomes claimed, so the hub never serves it (`AnsweredHasTurn`), and a claim created
  from an empty request reads back as one empty name (`RoundTrip`).
- A use recorded after another caller's lookup has evicted the licence names a licence that is not stored
  (`RecordAfterEvictionIsOrphan`). The book follows the store exactly if no use is recorded so late
  (`UsageFollowsStoreIff`), as when requests are single steps. Such an entry outlasts every run that does not add the
  licence again exactly if no heap holds a stale copy of it (`StaysInBookIff`): for a licence in a registry of its own,
  exactly if it lists no feature but the one looked up (`OrphanStaysIff`). Otherwise a lookup of one of the others
  strikes it.
- If one Secret brings two encodings of one certificate, the first in the order ranged over is the one stored; without
  that, the order has no effect on store, book, files and heap contents (`OrderDoesNotMatter`).
- The acquirer writes its cache directories but starts every registry empty, whatever a directory already holds
  (`GetLicenseRegistry`); only the proxy server reloads. It loads the mounted licence directory first and does not start
  if that fails. Licences found there replace other encodings of the same certificates in the cache directory, and
  nothing that was live is lost, however many starts fail (`CrashAndRestart`, `StoredIsRecovered`).

## Model

| member | source | states |
|---|---|---|
| Licenses.LessIsStrictWeakOrder | vendor/go.bytebuilders.dev/license-verifier/apis/licenses/v1alpha1/helper.go:34-62 | the preference between licences is a strict weak order, which heap and sort rely on |
| Licenses.BetterTierFirst | vendor/go.bytebuilders.dev/license-verifier/apis/licenses/v1alpha1/helper.go:64-74 | enterprise licences are preferred to all others and licences without a tier come last, whatever their dates |
| Licenses.EarlierFirst | vendor/go.bytebuilders.dev/license-verifier/apis/licenses/v1alpha1/helper.go:49-61 | unless tiers decide, the earlier start is preferred, and of two that start together the earlier end |
| Licenses.Thresholds | pkg/storage/store.go:31-34 | the two thresholds in nanoseconds, which differ by the acquisition buffer |
| Licenses.ExpiredMeans | pkg/storage/store.go:122 | the saturating expiry test is true exactly after the licence's end less the ttl |
| LicenseQueues.LicenseQueue.Swap | pkg/storage/store.go:46-48 | exchanges two entries and keeps the multiset |
| LicenseQueues.LicenseQueue.Push | pkg/storage/store.go:50-53 | appends one entry |
| LicenseQueues.LicenseQueue.Pop | pkg/storage/store.go:55-62 | removes and returns the last entry |
| LicenseQueues.Up | pkg/storage/store.go:106 | sifting up in place computes `Heaps.SiftUp` |
| LicenseQueues.Down | pkg/storage/store.go:123 | sifting down in place computes `Heaps.SiftDown` on the first n entries and leaves the rest |
| LicenseQueues.HeapPush | pkg/storage/store.go:106 | `heap.Push` through the queue's own methods computes `Heaps.Push` |
| LicenseQueues.HeapPop | pkg/storage/store.go:123 | `heap.Pop` returns the root and leaves `Heaps.Pop` |
| Heaps.SiftUpRestoresHeap | pkg/storage/store.go:106 | sifting up repairs a heap that is wrong at one node, keeping the multiset |
| Heaps.SiftDownRestoresHeap | pkg/storage/store.go:123 | sifting down repairs a heap that is wrong below one node, keeping the multiset |
| Heaps.PushKeepsHeap | pkg/storage/store.go:50-53 | push keeps heap order and adds exactly the new entry |
| Heaps.PopKeepsHeap | pkg/storage/store.go:55-62 | pop keeps heap order and removes exactly the root |
| Heaps.RootIsLeast | pkg/storage/store.go:119-121 | no entry of a heap is preferred to its root |
| RegistryStates.EnqueueForElems | pkg/storage/store.go:98-107 | one turn of the loop in `Add` keeps every heap, also when it makes a one-entry queue without `heap.Init`, and adds one entry to one heap |
| RegistryStates.EnqueueElems | pkg/storage/store.go:97-108 | `Add` pushes a licence once per listing of a feature and changes nothing else in any heap |
| RegistryStates.AddKeepsInv | pkg/storage/store.go:88-109 | `Add` keeps the two-index invariant |
| RegistryStates.EvictKeepsInv | pkg/storage/store.go:122-132 | one eviction keeps the two-index invariant and loses no live record, although stale copies stay in other heaps |
| RegistryStates.LookupKeepsInv | pkg/storage/store.go:111-138 | a lookup keeps the two-index invariant and removes only expired records |
| RegistryStates.LookupAnswersLikeScan | pkg/storage/store.go:111-138 | a lookup finds a licence exactly when a scan of the store would, and the one found is a best one of all those |
| Registries.LicenseRegistry.constructor | pkg/storage/store.go:78-86 | a new registry is empty |
| Registries.LicenseRegistry.Add | pkg/storage/store.go:88-109 | the method's effect on heaps, store and directory is that of the function `Add` |
| Registries.LicenseRegistry.LicenseForFeature | pkg/storage/store.go:111-138 | although the clock is read before every eviction, effect and answer are those of one lookup at the last reading |
| Registries.LicenseRegistry.AddToStore | pkg/storage/store.go:140-145 | stores the record and writes the file |
| Registries.LicenseRegistry.RemoveFromStore | pkg/storage/store.go:147-155 | removes record, usage entry and file |
| Registries.LicenseRegistry.List | pkg/storage/store.go:165-180 | each record ending strictly after now plus ttl exactly once, no others, sorted by preference |
| Registries.ListedVersusServable | pkg/storage/store.go:169-172 | listing and serving differ only for licences that end exactly at now plus ttl |
| Registries.RecordBook.Record | pkg/storage/recordbook.go:38-55 | replaces the usage entry of one licence |
| Registries.RecordBook.Delete | pkg/storage/recordbook.go:65-70 | removes the usage entry of one licence |
| Traces.RunKeepsInv | pkg/storage/store.go:88-138 | every run of additions, lookups and recordings on a monotone clock keeps the two-index invariant |
| Traces.RunAnswersLikeScan | pkg/storage/store.go:111-138 | in every reachable state, at every later clock reading, a lookup answers like a scan of the store |
| Traces.AddedStaysStored | pkg/storage/store.go:88-138 | whatever else a run does, a licence it adds is stored for as long as it is live, under its serial, if what the run adds under that serial says the same |
| Traces.StoredWasAdded | pkg/storage/store.go:88-138 | every stored record, to the byte of its licence and with its contract, was there before the run or was added by it |
| Conservation.EntriesAreConserved | pkg/storage/store.go:96-136 | over any run, heap entries left plus evictions equal entries before plus entries pushed |
| Conservation.EvictionsAreAmortised | pkg/storage/store.go:119-136 | all lookups of a run together evict at most once per feature listed by a licence that was added |
| SerialReuse.SharedSerialBreaksScan | pkg/storage/store.go:147-148 | two licences under one serial, `a` ending before `b` and listing two different features: at the last instant of `b`, after adding `a`, looking up its first feature, adding `b` and looking up the second, the heaps serve `b` under each feature it lists while the store has lost it, if and only if `b` lacks that second feature or is not preferred to `a` |
| UsageRuns.UsageFollowsStoreIff | pkg/storage/store.go:147-151 | every recorded serial is in the store at every point of a run, if and only if the run records use only of licences then stored |
| UsageRuns.BookIsLastUse | pkg/storage/recordbook.go:38-70 | in runs that record use only of licences then stored, an entry of the book is the last recorded use since the licence was last added, and there is an entry exactly if there is such a use |
| Orphans.RecordAfterEvictionIsOrphan | pkg/registry/proxyserver/licenserequest/storage.go:141-142 | in every state, for every licence found: if another lookup of the feature comes first once the licence has expired, recording its use leaves an entry for a licence that is not stored |
| Orphans.StaysInBookIff | pkg/storage/store.go:147-151 | an entry of the book outlasts every run that does not add its licence again, if and only if no heap holds a copy of it |
| Orphans.OrphanStaysIff | pkg/registry/proxyserver/licenserequest/storage.go:141-142 | for a licence in a registry of its own, found, evicted and only then recorded, the entry outlasts every run without a re-addition, if and only if the licence lists no other feature |
| Loader.LoadDir | pkg/storage/loader.go:31-84 | nothing is read if the authority or the directory cannot be; else entries are tried in listing order up to the first unreadable one: directories are skipped, files that do not parse or are too old passed over, the others added |
| Loader.LoadOne | pkg/storage/loader.go:45-82 | the body of that loop for one entry, with its two clock readings |
| Loader.ForeignLoadOkIff | pkg/storage/loader.go:45-68 | another directory loads if and only if every listed name is a directory, a link to one, or a readable file |
| Loader.OwnLoadOkIff | pkg/storage/loader.go:45-68 | the registry's own directory loads under the same condition, although the load writes to it meanwhile |
| Loader.ForeignLoadAdds | pkg/storage/loader.go:70-82 | a load of another directory keeps every record and adds one for exactly the new serials among the certificates that listed files hold, valid when parsed and with five minutes left when checked |
| Loader.ForeignLoadStores | pkg/storage/loader.go:70-82 | so every licence that a listed file brings is stored after a load |
| Loader.LoadStops | pkg/storage/loader.go:45-68 | what is listed after the entry that fails a load does not matter |
| Recovery.RunKeepsFilesAreStore | pkg/storage/store.go:140-155 | from an empty directory, the files are exactly the data of the stored licences, under their serials |
| Recovery.RunKeepsMirrored | pkg/storage/store.go:140-155 | every run keeps each stored licence in its own file, and leaves no other live licence in the directory |
| Recovery.RestartRecovers | pkg/storage/loader.go:45-82 | loading the directory of a crashed registry succeeds, brings back exactly the licences still live, and mirrors again |
| Recovery.SameLiveSameAnswers | pkg/storage/store.go:111-138 | registries with the same live licences find the same features, and the same licence where the preference decides |
| Restarts.BootRecovers | pkg/apiserver/apiserver.go:202-215 | a start loads the mounted directory and then the cache directory, and succeeds exactly if all that is mounted can be read; it then has every licence that the mounted directory brings and every live licence that the cache directory held, nothing that was in neither, and its directory mirrors it |
| Restarts.CrashAndRestart | pkg/apiserver/apiserver.go:202-215 | after any number of lives the next start has every live licence of the crashed server and else only mounted ones, and finds every feature as before; without a mounted directory it always succeeds, with exactly the same live licences and the same answers |
| Restarts.StoredIsRecovered | pkg/apiserver/apiserver.go:202-215 | a licence stored at the end of one life is stored again in every later life that comes up while it is live, whatever starts fail in between |
| Restarts.InterleavedIsMirrored | pkg/storage/store.go:88-155 | amid any interleaving of callers that add parsed licences, whenever the registry's lock is free the directory mirrors the registry |
| Syncer.LicenseSyncer.AddLicense | pkg/controllers/secret/license_syncer.go:96-116 | one Secret entry is parsed and added if it has five minutes left |
| Syncer.LicenseSyncer.Reconcile | pkg/controllers/secret/license_syncer.go:49-86 | entries are added in some order until one does not parse; the Secret is copied exactly if all do |
| SyncOrder.SyncStore | pkg/controllers/secret/license_syncer.go:60-64 | after a pass in which all entries parse, judged at one instant, the store holds what it held and a licence for each new serial, no more |
| SyncOrder.SyncContents | pkg/controllers/secret/license_syncer.go:60-64 | files and heaps too hold what they held and the new licences, no more, if no two of these share a serial |
| SyncOrder.OrderDoesNotMatter | pkg/controllers/secret/license_syncer.go:60-64 | every order of the entries gives the same store, book and files, and the same multiset in every heap, if and only if no two of the new licences share a serial |
| SyncOrder.OrderDoesNotMatterToAnswers | pkg/controllers/secret/license_syncer.go:60-64 | after any two orders the same features are served, with licences that the preference does not tell apart |
| SyncOrder.SyncFailsIff | pkg/controllers/secret/license_syncer.go:96-104 | a pass fails if and only if some entry does not parse when its turn comes |
| Syncer.SyncStops | pkg/controllers/secret/license_syncer.go:60-64 | what comes after the entry that fails a pass does not matter |
| HubPasses.PassShips | pkg/manager/license_acquirer.go:137-174 | a pass leaves under each plan the data of the last licence shipped with it and all other keys alone, and its requeue time is the earliest end shipped, zero exactly if nothing was |
| HubPasses.RequeueIsEarlyEnough | pkg/manager/license_acquirer.go:182-186 | before the requeue every shipped licence has more than the ttl left; there is a requeue exactly if that still holds at the last clock reading |
| HubPasses.RequeueIsExact | pkg/manager/license_acquirer.go:182-186 | the requeue is for the instant at which the licence shipped that ends first has exactly the ttl left, up to the ends of a 64-bit duration, and zero if nothing was shipped |
| HubPasses.PassErrors | pkg/manager/license_acquirer.go:160-166 | the errors of a pass are, in order, the features of the turns that serve nothing for another reason than an invalid certificate |
| HubPasses.BroughtMeans | pkg/manager/license_acquirer.go:190-219 | an acquisition brings a licence exactly if one is issued whose certificate is good and valid when it is parsed |
| HubPasses.AcquiredIsStored | pkg/manager/license_acquirer.go:145-167 | a turn serves what the registry finds, or else what it acquires, which is then stored with its contract unless its serial already was; apart from that the registry is as the lookup left it |
| Fixpoint.PassMakesRootsLive | pkg/manager/license_acquirer.go:144-174 | with a stopped clock, after a pass with good acquisitions every feature it served has a live root |
| Fixpoint.ReconcileSettles | pkg/manager/license_acquirer.go:144-174 | after one such pass, any number of passes up to the deadlines of the licences served find every feature in the registry at their turn, leave the registry as it is, and all write the Secret that the first of them wrote |
| Acquirer.LicenseAcquirer.GetLicenseRegistry | pkg/manager/license_acquirer.go:96-113 | the same registry for a cluster for ever, a fresh one with its own directory for a new cluster, none if the directory cannot be made |
| Acquirer.LicenseAcquirer.GetNewLicense | pkg/manager/license_acquirer.go:190-219 | the remote certificate parsed for the cluster, or an error |
| Acquirer.LicenseAcquirer.ServeFeature | pkg/manager/license_acquirer.go:145-167 | looks a feature up, and acquires and adds a licence if that finds none |
| Acquirer.LicenseAcquirer.ServeFeatures | pkg/manager/license_acquirer.go:144-174 | the loop computes the pass on registry, Secret data, requeue time and errors |
| Acquirer.LicenseAcquirer.ReconcileCluster | pkg/manager/license_acquirer.go:115-188 | one pass with its early returns, Secret write and requeue; no other cluster's registry changes in any part |
| Acquirer.LicenseAcquirer.Reconcile | pkg/manager/license_acquirer.go:72-94 | a managed cluster that cannot be read is an error and changes nothing; else it is served exactly once both claims are there, with the features that the split claim lists; no other cluster's registry changes in any part |
| Acquirer.ClaimValueIff | pkg/manager/license_acquirer.go:79-87 | the value read for a claim name is that of the last claim of that name, and none exactly if there is none |
| Acquirer.ClaimsAreRead | pkg/manager/license_acquirer.go:79-87 | wherever they stand among others, the claim id.k8s.io names the cluster and the claim licenses.appscode.com lists its features |
| Acquirer.MissingClaims | pkg/manager/license_acquirer.go:88-93 | without the first there is no cluster to serve, and without the second, and only then, no feature |
| Renewal.RootKeptUntilDeadline | pkg/storage/store.go:119-134 | a root is served without eviction exactly up to and including its end less the ttl |
| Renewal.ServedIsInSecret | pkg/manager/license_acquirer.go:168-173 | after a pass the Secret has an entry under the plan of every active licence served, which ends no earlier than the requeue time says; the entry is what the last turn that shipped the plan served, this or a later one |
| Renewal.AddedIsServed | pkg/controllers/secret/license_syncer.go:106-114 | on the spoke a feature is served while any licence added for it is live, whatever else runs |
| Renewal.NoGap | pkg/controllers/secret/license_syncer.go:96-116 | a feature is served at every instant from the addition of the first of any number of licences to the deadline of the last, if each is added by the deadline of the one before |
| Renewal.SyncIsRun | pkg/controllers/secret/license_syncer.go:60-64 | a sync in which all entries parse is a run of additions |
| Renewal.RenewalLeavesNoGap | pkg/manager/license_acquirer.go:115-188 | over any number of hub passes, each shipping last under its plan a licence for the feature, and each Secret synced within the acquisition buffer after the instant for which the pass before was requeued, the spoke has no instant without the feature from the first sync to the deadline of the last licence |
| RenewalExample.ExampleRenewsInTime | pkg/manager/license_acquirer.go:144-186 | a concrete pair of rounds that meets all conditions of `RenewalLeavesNoGap` |
| RenewalExample.ExampleSyncsIff | pkg/manager/license_acquirer.go:168-180 | the second licence of that pair under any plan: after the first has ended, the Secret of the two passes syncs if and only if the plan is the same |
| RenewalExample.ExampleAtRequeueInstant | pkg/manager/license_acquirer.go:182-186 | a concrete pass at exactly the requeue instant keeps the old licence and the Secret, and asks for no requeue |
| Renewal.LatePassRenews | pkg/manager/license_acquirer.go:144-186 | a turn strictly after the requeue instant serves a licence that ends later than the one requeued for, or one newly acquired |
| Renewal.SyncAfterPassIff | pkg/manager/license_acquirer.go:168-180 | the sync of a Secret that a pass has left, in any order, succeeds if and only if each licence shipped last under its plan parses when its turn comes and so does each entry under a plan not shipped |
| Renewal.DroppedPlanBlocksSync | pkg/controllers/secret/license_syncer.go:96-104 | an entry under a plan no longer shipped stays in the Secret and, once its licence has ended, fails every sync |
| ClaimCodec.RoundTrip | pkg/manager/license_acquirer.go:86 | splitting what was joined gives the list back if and only if it is not empty and its names are comma-free |
| ClaimCodec.JoinDecodes | pkg/registry/proxyserver/licenserequest/storage.go:118 | a claim stands for the pieces of all names joined into it |
| ClaimCodec.SortNamesSorts | pkg/registry/proxyserver/licenserequest/storage.go:126 | sorting orders the names and keeps their multiset |
| ClaimCodec.BeforeMeans | pkg/registry/proxyserver/licenserequest/storage.go:126 | names are compared character by character, and a beginning comes before what it begins |
| ClaimCodec.List | pkg/registry/proxyserver/licenserequest/storage.go:118 | the strictly sorted listing of a set of names |
| ClaimCodec.StrictListingIsUnique | pkg/registry/proxyserver/licenserequest/storage.go:118 | a set has one strictly sorted listing, whatever order a map gives its elements in |
| Claims.UpdateDecodes | pkg/registry/proxyserver/licenserequest/storage.go:111-123 | an updated claim reads back as the sorted union of old and requested features if and only if the names are comma-free |
| Claims.CreateDecodes | pkg/registry/proxyserver/licenserequest/storage.go:124-131 | a created claim reads back as the sorted request if and only if there is one and its names are comma-free |
| Claims.InterleaveKeepsInv | pkg/registry/proxyserver/licenserequest/storage.go:103-138 | every interleaving of stale reads and version-checked writes keeps the claim growing and every answered request claimed |
| Claims.ClaimOnlyGrows | pkg/registry/proxyserver/licenserequest/storage.go:103-138 | between any two points of any interleaving the claim gains features and loses none |
| Claims.AnsweredStaysClaimed | pkg/registry/proxyserver/licenserequest/storage.go:136-138 | once answered, a request has exactly its comma-free features in the claim from then on |
| Claims.ClaimPathMeans | pkg/registry/proxyserver/licenserequest/storage.go:103-138 | a request on the claim path is answered if and only if the read succeeds and the claim has every name, or the creation or update is one that the API server takes; the claim then stands for what was read and what was requested, and otherwise nothing changes |
| Claims.WriteIsClaimPath | pkg/registry/proxyserver/licenserequest/storage.go:103-138 | a request's write amid all others is its claim path, answered or failed |
| Claims.UndisturbedIsAnswered | pkg/registry/proxyserver/licenserequest/storage.go:103-138 | after any interleaving, a request that runs undisturbed from there on is answered |
| Claims.EndedStays | pkg/registry/proxyserver/licenserequest/storage.go:103-138 | a request that has been answered or has failed is over, whatever happens later |
| Claims.ErrorFails | pkg/registry/proxyserver/licenserequest/storage.go:120-134 | an error of the API server fails a request that is under way and changes nothing else |
| RequestStates.GetStoredIsExact | pkg/registry/proxyserver/licenserequest/storage.go:155-164 | the loop serves the first requested feature that the store before the call could serve when its turn came, best first, and gives up only if there is none |
| RequestStates.GetLicenseMeans | pkg/registry/proxyserver/licenserequest/storage.go:155-187 | a best licence for the first feature that can be served; failing that, what the remote client brings, stored with its contract; a failure exactly if there is a client and it brings nothing |
| RequestStates.RequestIsRun | pkg/registry/proxyserver/licenserequest/storage.go:91-187 | a request is a run of registry steps that records use only of licences in the store |
| ServerRuns.ServerBookFollowsStore | pkg/registry/proxyserver/licenserequest/storage.go:141-145 | over all runs with requests as single steps, the book holds for each licence the last request served with it while it stayed in the store, and nothing else |
| LicenseStatuses.Storage.Get | pkg/registry/proxyserver/licensestatus/storage.go:100-130 | the status under a name, from the registry's record and the book's entry, or none |
| LicenseStatuses.Storage.List | pkg/registry/proxyserver/licensestatus/storage.go:83-98 | the statuses that `Get` would give for all stored licences ending after now plus ttl, once each, the preferred first |
| LicenseStatuses.StatusShowsLastUse | pkg/registry/proxyserver/licensestatus/storage.go:100-130 | over all runs with requests as single steps, there is a status under a name exactly if its licence is stored; it shows the licence, its start and contract, and the last request served with it since it was added |
| Requests.Storage.GetStored | pkg/registry/proxyserver/licenserequest/storage.go:155-161 | the evicting loop over the requested features computes the function `GetStored` at the readings made |
| Requests.Storage.GetLicense | pkg/registry/proxyserver/licenserequest/storage.go:155-187 | served from the registry, or acquired, parsed and added; errors of either are passed on |
| Requests.Storage.ClaimFeatures | pkg/registry/proxyserver/licenserequest/storage.go:103-138 | the claim path, for what the API server answers to the read and the write: a blank answer if and only if the claim has every name or the write goes through, else an error and no change |
| Requests.Storage.Create | pkg/registry/proxyserver/licenserequest/storage.go:91-153 | every branch of a request: registry, usage book, claim, feature list and response are those of the function `CreateEnd` |
| Requests.CreateMeans | pkg/registry/proxyserver/licenserequest/storage.go:91-153 | when a request is granted and with what, answered blank or with an error, by what the store could serve, what the remote client brings, and what the API server answers about the claim; a grant is stored and its use recorded |
| Locking.NoDeadlock | pkg/storage/recordbook.go:38-70 | while some call is under way some caller can go on, even with waiting writers ahead of new readers |
| Locking.GoIsAtomic | pkg/storage/store.go:88-155 | each step of each caller leaves the settled indexes alone or makes one addition or one eviction |
| Locking.EveryInterleaving | pkg/storage/store.go:88-155 | for any number of callers in any interleaving, the two-index invariant holds whenever the registry's lock is free, and there is no deadlock |
| Locking.LookupsAreAtomic | pkg/storage/store.go:111-138 | however a lookup is interleaved with other callers, its answer is that of one scan of the indexes as they were when it took the lock, at the clock reading it made last |
| Locking.EveryInterleavingIsRun | pkg/storage/store.go:88-155 | for any number of callers in any interleaving, whenever the registry's lock is free, heaps, store and files are those of the run of single additions and lookups in the order in which these entered and returned |
| Locking.BookUnderInterleaving | pkg/storage/recordbook.go:38-70 | under any interleaving, whenever the registry's lock is free, an entry of the usage book is what some caller was asked to record, for a licence that is stored or one that was not when its use was recorded |
| Locking.UndisturbedAdd | pkg/storage/store.go:88-109 | a caller that adds while the lock is free, and goes on until it is done, adds what the function `Add` does |
| Locking.UndisturbedLookup | pkg/storage/store.go:111-138 | a caller that looks a feature up while the locks are free, and goes on, gets the answer and leaves the state of the function `Lookup` |
| Locking.UndisturbedRecord | pkg/storage/recordbook.go:38-55 | a caller that records use while the book is free, and goes on, records it |
| EndToEnd.AnsweredHasTurn | pkg/manager/license_acquirer.go:81-90 | of a request answered without error, exactly the features with comma-free names have a turn in every pass over any later value of the claim |
| Deliveries.SyncServesIff | pkg/controllers/secret/license_syncer.go:60-114 | after a sync that succeeds, in any order and at any readings, the spoke can serve a feature if and only if it could before or some entry holds a certificate for it that is good for the spoke |
| Deliveries.PassReachesIff | pkg/manager/license_acquirer.go:168-173 | after a sync of what a pass has left, the spoke serves a feature if and only if it could before, or a licence last shipped under its plan lists it, or an entry that the pass left alone does |
| EndToEnd.HonestTurnServes | pkg/manager/license_acquirer.go:144-167 | a turn that acquires, if it has to, a licence listing its feature serves an active licence that lists it |
| EndToEnd.LastTurnDelivers | pkg/manager/license_acquirer.go:168-173 | what a turn serves reaches the spoke if no later turn ships under its plan |
| EndToEnd.SyncedIsServed | pkg/registry/proxyserver/licenserequest/storage.go:155-164 | once the spoke has synced a Secret whose pass shipped a licence for the feature last under its plan, whatever else the spoke does, a request that asks for the feature while the licence is live is granted from the registry |
| EndToEnd.AnsweredIsServed | pkg/registry/proxyserver/licenserequest/storage.go:103-164 | after a blank answer, in any later pass with honest acquisitions every comma-free feature of the request has a turn that serves a licence for it; if such a licence is also shipped last under its plan, asking again after a sync is granted |
| EndToEnd.AnsweredIsGrantedIff | pkg/registry/proxyserver/licenserequest/storage.go:103-164 | the same request is granted after one such pass and one sync if and only if, for one of its features, the spoke could serve it before, or a licence last shipped under its plan lists it, or an entry left in the Secret does |
| PlanExample.PassIsHonest | pkg/manager/license_acquirer.go:144-174 | a concrete claim of two features and pass over it that meets all conditions of `AnsweredIsGrantedIff`, with a licence served for each |
| PlanExample.ExampleServesIff | pkg/manager/license_acquirer.go:168-173 | after that pass and any number of later ones while both licences are good, a fresh spoke that syncs serves the second feature, and the first if and only if the two licences are under different plans |

## Left out

- The certificates themselves, the certificate authority loader and the HTTP client of the licence service.
- Errors of single file writes and removals, which the source ignores, and the saturation of the requeue time on the way back to a wall-clock instant.
- Syncer.LicenseSyncer.Reconcile: the steps of `CreateOrPatch` are one step that succeeds or not.
- Locking.EveryInterleaving: the file write of an addition is one step with the store update, since only the lock holder sees either; `List` and `Get` are one reading step.
- ServerRuns.ServerBookFollowsStore: takes each request as one step, because recording happens outside the registry's lock; UsageFollowsStoreIff says exactly when the property holds otherwise.
- SyncOrder.OrderDoesNotMatter: judges all entries at one clock reading, since at different readings the order decides which entries still parse.
- Aliasing between Go slices and the response objects that share them: requests and records hold values.
- API server wiring, command line flags, role and chart templates, table output, generated clients and the file system over Secrets: plumbing whose members would be easy.
