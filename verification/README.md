# Polaris controller: a verified model

The Polaris controller keeps a Kubernetes cluster and a Polaris server in step. It injects sidecars into
pods by answering admission requests with JSON patches, registers the endpoints of services as Polaris
instances, and copies ConfigMaps to configuration files and back. This project models the parts of it
that are hardest to get right and proves what they do, on all inputs and over all runs.

| files | what they model |
|---|---|
| `Wrappers`, `Text` | Option and Result; decimal numbers, string replacement and sorting of the Go library |
| `JsonPatch`, `PodDocument` | JSON Pointer (RFC 6901) and the operations add, remove and replace of JSON Patch (RFC 6902, sections 4.1 to 4.3), interpreted over a pod document |
| `BasePatch`, `AnnotationPatch`, `Webhook` | the patch of an injection, and what it does to the document |
| `Reinjection`, `JavaAgent`, `Concurrency` | injecting again; the java-agent mode; the proxy's concurrency flag |
| `Instances`, `Registry`, `Reconcile`, `Convergence`, `Paging` | endpoints and registered instances, their comparison and repair, and the paged concurrent calls that carry it out |
| `Services`, `Controller`, `ServiceSync`, `Resync`, `TaskQueue` | the controller's events, caches, resync, health probe and retrying work queue, as single methods and over runs |
| `ConfigSync`, `ConfigWatcher` | the two-way configuration sync over many clusters, and the watcher's index |
| `SegmentMaps`, `Executor` | the sharded map and the worker pool |

Code that works step by step is modelled by methods with loops, on arrays and class fields where the
source has them, and each is proved against a function that says what it computes; the theorems are
lemmas about those functions. Concurrent parts are state machines whose steps interleave freely.

## What was found on the way

These are the places where a property one would expect does not hold. In each case the code is kept as
it is, the failure is a lemma, and the exact condition under which the property holds is proved.

- Injecting twice does not always give what injecting once gives: a proxy container that brings its own
  service account mount is handed it again (`ProxyMountDoubles`). `ReinjectionKeepsNames` and
  `ReinjectionKeepsList` give the exact conditions, and `InjectionSettles` shows that from the second
  injection on nothing changes.
- In java-agent mode the replace operations carry original indices and run after the removals. Removed
  containers come back and as many injected ones are buried (`OverwriteBuries`); the patch fails when more
  were removed than injected (`JavaPatchMeaning`), and whenever the injected annotations bring an agent
  version the pod does not have (`VersionClashFails`). The mode is not idempotent (`JavaReinjectionDoubles`).
- A concurrency flag that sets nothing, such as `--concurrency=0`, hides the appended one, and every
  further application appends again (`ZeroHides`, `AppliesOnce`).
- Pod labels are laid over the controller's own marks and can overwrite them (`LabelLosesInstance`,
  `ManagedBecomeEndpoints`).
  A differing protocol is never repaired but causes an update on every pass, and so do more than four
  metadata entries without custom metadata (`StillDiffers`, `ThreeLabelsUnsettle`).
- A failed instance query reads as an empty list and a denied deletion (code 401000) as a success; either,
  and also a recovery of the server or a restart of the controller, leaves a vanished service's instances
  registered for good (`FailedQueryLeaks`, `DeniedDeletionLeaks`, `RecoveryLeaks`, `RestartLeaks`,
  `LeakStays`; `LeaksReached` gives a run to each). `VanishedIff` says exactly when that does not happen.
- A failed deletion inserts its task on top of the retry, so a task whose deletions keep failing is never
  dropped (`NeverDropped`), and one that inserted itself once can outlive its eleventh failure
  (`LeftoverRevives`); `DroppedIff` is the exact condition.
- Resync strips a suffix its keys do not carry, so its lookup never finds anything, and it panics on
  services whose namespace and name have fewer than four letters together (`PassEnqueuesAll`, `PassPanics`).
- A deletion the informer learned of late is ignored, and the service stays in the resync cache (`CacheExact`).
- Stopping a worker can hang (`StopCanHang`, `ClosesIff`, `EveryRunCloses`); the last worker of a pool gets no keyed tasks
  (`LastWorkerIdle`); an interval task fires once (`Executor.DelayQueue.Tick`).

Where code and comments disagree, the model follows the code:

- `pkg/polarisapi/service_api.go:185` says that a failure among the pages puts the work back into the queue;
  `pkg/controller/endpoint.go:222` drops the errors of all three batches.
- `pkg/controller/endpoint.go:201` says that the platform does not register addresses when `enableRegister`
  is "true"; the condition closes only when both `enableRegister` and `sync` are "false".
- `pkg/controller/service.go:175` says that a task from the namespace flow marks the service; the value
  compared with is "add" while the operation is "Add", so it never does.
- `pkg/util/address/address.go:83` joins the two bounds on a custom weight with "or", so every weight passes.

## Model

| member | source | states |
|---|---|---|
| `JsonPatch.UnescapeEscape` | pkg/inject/pkg/kube/inject/webhook.go:320-323 | the two escaping passes are undone by the unescaping order of RFC 6901 section 4, for every string |
| `JsonPatch.EscapeInjective` | pkg/inject/pkg/kube/inject/webhook.go:320-323 | different annotation keys get different pointers |
| `JsonPatch.EscapeIsToken` | pkg/inject/pkg/kube/inject/webhook.go:320-323 | an escaped key has no "/" and every "~" starts "~0" or "~1" |
| `AnnotationPatch.AnnotationTokens` | pkg/inject/pkg/kube/inject/webhook.go:391-395 | the path written for a key names exactly that key's member of the annotations |
| `BasePatch.RemoveItems` | pkg/inject/pkg/kube/inject/apply/base/patch.go:44-60 | the removal loop emits the descending removals of the named items |
| `BasePatch.RemoveMeaning` | pkg/inject/pkg/kube/inject/apply/base/patch.go:42-60 | applied in order, the removals never miss an index and leave exactly the items not named, in order |
| `BasePatch.AddItems` | pkg/inject/pkg/kube/inject/apply/base/patch.go:117-136 | the adding loop of volumes and pull secrets creates the array once, then appends |
| `BasePatch.FindServiceAccountMount` | pkg/inject/pkg/kube/inject/apply/base/patch.go:62-76 | the scan finds the last service account mount, if it names its volume |
| `BasePatch.AddContainers` | pkg/inject/pkg/kube/inject/apply/base/patch.go:62-103 | containers are appended with the proxy given the service account mount, the array created exactly when the list was empty before removals |
| `BasePatch.AddMeaning` | pkg/inject/pkg/kube/inject/apply/base/patch.go:78-103 | the additions turn the list into itself followed by what is added, whether it was written, missing or emptied by removals |
| `AnnotationPatch.UpdateAnnotation` | pkg/inject/pkg/kube/inject/webhook.go:364-399 | the operations for the non-empty entries in sorted order |
| `AnnotationPatch.AnnotationMeaning` | pkg/inject/pkg/kube/inject/webhook.go:364-399 | they overlay the annotations with the non-empty entries and touch nothing else, in whatever order the keys come |
| `Webhook.CreatePatch` | pkg/inject/pkg/kube/inject/webhook.go:401-534 | the emitted list is all removals, all additions with the mode's updates between, the settings, the annotations |
| `Webhook.PatchMeaning` | pkg/inject/pkg/kube/inject/webhook.go:401-534 | in mesh and dns mode the patch never misses a target and yields (old list without previously injected names) followed by the injected list, for all four lists, annotations overlaid, DNS set if given, nothing else changed |
| `Reinjection.AddInjectStatusAnnotation` | pkg/inject/pkg/kube/inject/pod.go:186-214 | the status records the names of all four lists |
| `Reinjection.StatusReadBack` | pkg/inject/pkg/kube/inject/webhook.go:544-573 | the next injection reads back exactly the names the last one injected |
| `Reinjection.ReinjectionKeepsNames` | pkg/inject/pkg/kube/inject/webhook.go:544-573 | two injections leave the names of one in each list exactly if no kept item bears an injected name |
| `Reinjection.ReinjectionKeepsList` | pkg/inject/pkg/kube/inject/apply/base/patch.go:62-103 | they leave the very same list exactly if, besides, the mounts of the pod and of the template hand every proxy the same mount both times |
| `Reinjection.ProxyMountDoubles` | pkg/inject/pkg/kube/inject/apply/base/patch.go:62-103 | a proxy with its own service account mount gets it a second time |
| `Reinjection.InjectionSettles` | pkg/inject/pkg/kube/inject/webhook.go:401-534 | whatever pod one starts from, every list stops changing after the second injection of a template |
| `JavaAgent.UpdateContainer` | pkg/inject/pkg/kube/inject/apply/javaagent/patch.go:281-381 | it panics without annotations; otherwise one replace for each original container, which has the agent mounted and its options extended, the same for all |
| `JavaAgent.AppendOption` | pkg/inject/pkg/kube/inject/apply/javaagent/patch.go:334-364 | the first JAVA_TOOL_OPTIONS entry is suffixed, or else one is appended |
| `JavaAgent.UpdateMeaning` | pkg/inject/pkg/kube/inject/apply/javaagent/patch.go:372-378 | replaces at original indices overwrite a prefix, and miss a target exactly if the list has become shorter than it was |
| `JavaAgent.CreateJavaPatch` | pkg/inject/pkg/kube/inject/webhook.go:509-534 | the patch of java-agent mode, whose annotation part consults the map updateContainer wrote into |
| `JavaAgent.JavaPatchMeaning` | pkg/inject/pkg/kube/inject/webhook.go:509-534 | the patch fails exactly if more containers were removed than injected, and otherwise yields the overwritten containers and everything else as in the other modes |
| `JavaAgent.VersionClashFails` | pkg/inject/pkg/kube/inject/apply/javaagent/patch.go:288-293 | it always fails if the injected annotations bring a version the pod lacks |
| `JavaAgent.OverwriteBuries` | pkg/inject/pkg/kube/inject/apply/javaagent/patch.go:372-378 | every removed container comes back and as many injected ones are lost |
| `JavaAgent.JavaIntended` | pkg/inject/pkg/kube/inject/apply/javaagent/patch.go:281-381 | the containers are as intended exactly if none was removed, re-injection of the same names included |
| `JavaAgent.JavaReinjectionDoubles` | pkg/inject/pkg/kube/inject/apply/javaagent/patch.go:281-381 | a second injection gives every container the agent once more |
| `Concurrency.ExtractConcurrency` | pkg/inject/pkg/kube/inject/concurrency.go:41-72 | the first flag decides, with its own value or the next argument |
| `Concurrency.ApplyConcurrency` | pkg/inject/pkg/kube/inject/concurrency.go:76-93 | only the first proxy of the list changes, and only if it has no positive value |
| `Concurrency.WantedHolds` | pkg/inject/pkg/kube/inject/concurrency.go:85-104 | the value n has 1000(n-1) < millis <= 1000n, limits before requests |
| `Concurrency.AppliedReads` | pkg/inject/pkg/kube/inject/concurrency.go:76-104 | afterwards the proxy reports that value exactly if it had no flag |
| `Concurrency.ZeroHides` | pkg/inject/pkg/kube/inject/concurrency.go:76-93 | `--concurrency=0` is a flag that sets nothing, and two applications append twice |
| `Concurrency.ListAppliesOnce` | pkg/inject/pkg/kube/inject/concurrency.go:76-93 | applying again changes nothing exactly if the value was set, there was none to set, or there was no flag |
| `Instances.AddressKeyInjective` | pkg/util/address/address.go:79 | "ip-port" keys never collide, whatever the host |
| `Instances.BuildAddresses` | pkg/util/address/address.go:61-108 | one address for every port, a custom weight by ordinal winning over the default |
| `Instances.SpecTable` | pkg/util/address/address.go:119-151 | the table written from ready and then not ready addresses of every subset |
| `Instances.TableLast` | pkg/util/address/address.go:119-151 | the table holds exactly the offered keys, each with the last address offered |
| `Instances.NotReadyIsolated` | pkg/util/address/address.go:132-148 | an address that is not ready in the last subset ends up isolated, though it may also be listed as ready |
| `Instances.CurrentTable` | pkg/util/address/address.go:154-196 | the instances that carry this cluster's marks, by the new or the old source key |
| `Reconcile.CompareInstanceUpdate` | pkg/controller/apis.go:260-348 | whether health check, health, isolation, weight, protocol or custom metadata differ |
| `Reconcile.CompareInstance` | pkg/controller/apis.go:232-257 | exactly the missing, differing and superfluous entries, each once, in any map order |
| `Reconcile.DifferenceApplied` | pkg/controller/endpoint.go:187-222 | carrying a difference out has the pointwise outcome: added, refreshed, removed or untouched, add being add-if-absent |
| `Reconcile.ProcessSyncInstance` | pkg/controller/endpoint.go:165-223 | a whole reconcile, whatever the server answers: one comparison, three paged batches, and their errors dropped; it fails only for want of endpoints |
| `Reconcile.GetAllInstance` | pkg/controller/apis.go:210-229 | an answered query shows every instance once, a failed one reads as an empty list |
| `Convergence.ManagedBecomeEndpoints` | pkg/controller/endpoint.go:165-223 | the managed set becomes the endpoints minus what others hold, if and only if no written pod's labels overwrite the marks |
| `Convergence.EndpointsServed` | pkg/controller/apis.go:293-306 | weight and isolation are then those of the endpoints |
| `Convergence.OthersUntouched` | pkg/controller/endpoint.go:202-222 | whichever calls get through, in any order and number, foreign instances stay as they are |
| `Convergence.RepairKeepsOthers` | pkg/controller/endpoint.go:202-222 | so does a whole reconcile with its paged batches, whatever the server answers |
| `Convergence.LabelLosesInstance` | pkg/controller/apis.go:412-417 | a pod label naming another cluster makes the controller lose the instance it adds |
| `Convergence.NextComparison` | pkg/controller/apis.go:232-257 | the next comparison deletes nothing and adds only what others hold |
| `Convergence.StillDiffers` | pkg/controller/apis.go:308-353 | a refreshed instance is refreshed again on the next pass exactly if its protocol differs or the metadata check cannot be satisfied |
| `Convergence.FreshDiffers` | pkg/controller/apis.go:94-124 | an instance just added is refreshed on the next pass exactly if it has a heartbeat or the metadata check cannot be satisfied |
| `Convergence.ThreeLabelsUnsettle` | pkg/controller/apis.go:320-353 | three pod labels are enough for the metadata check never to be satisfied |
| `Convergence.ReconcileSettles` | pkg/controller/endpoint.go:165-223 | reconciling again changes nothing without a heartbeat, and with one from the second time on |
| `Convergence.UnansweredOnlyAdds` | pkg/controller/apis.go:217-224 | a reconcile whose query failed changes and removes nothing |
| `Convergence.PagedReconcile` | pkg/polarisapi/service_api.go:61-177 | a reconcile whose three batches are paged and sent concurrently has the pointwise outcome exactly if every operation was carried out or had nothing to do, however the pages interleave |
| `Convergence.RepliedReconcile` | pkg/polarisapi/service_api.go:136-177 | when every reply tells what became of its page, the outcome is reached exactly if the replies withhold no deletion, no addition of an absent key and no update that would change something |
| `Convergence.ExistingReported` | pkg/polarisapi/service_api.go:154-168 | the addition of a key somebody holds, answered with entry 400201, records no error, changes nothing and is such a reply |
| `Convergence.ReconcileConverges` | pkg/controller/endpoint.go:165-223 | from any registry, endpoints held by others included: when every reply reports success, existing (400201) or unchanged (200002) and the marks are kept, exactly the endpoints not held by others are managed, and the next comparison deletes nothing and adds only what others hold |
| `Registry.OrderIrrelevant` | pkg/polarisapi/service_api.go:77-131 | operations on distinct keys may be reordered freely |
| `Registry.LeavingOut` | pkg/polarisapi/service_api.go:77-131 | leaving operations out and repeating or reordering others makes no difference exactly if those left out had nothing to do |
| `Paging.SplitArray` | pkg/polarisapi/service_api.go:722-741 | ceil(n/size) non-empty pages of at most size, full but for the last, whose concatenation is the input |
| `Paging.DealResponse` | pkg/polarisapi/service_api.go:136-177 | the errors a reply records, for all three kinds of batch |
| `Paging.SilentIff` | pkg/polarisapi/service_api.go:251-296 | exactly when a page records no error; denied access is silent except for updates |
| `Paging.ForkJoin` | pkg/polarisapi/service_api.go:74-133 | any interleaving of the pages leaves the registry of the sequential run, and an error exactly if a page recorded one |
| `Paging.PagedCalls` | pkg/polarisapi/service_api.go:61-134 | a paged batch refines the unpaged one |
| `Paging.SendBatch` | pkg/polarisapi/service_api.go:180-249 | a batch is split, every page sent, and an error returned exactly if some reply makes its page record one; what an honest server reports as existing or unchanged was so when the batch began |
| `Paging.BatchCarries` | pkg/polarisapi/service_api.go:61-177 | whatever the replies, a batch carries out only what it was asked to do |
| `Paging.DeletionComplete` | pkg/polarisapi/service_api.go:251-296 | a deletion without an error carried out everything exactly if no page and no entry was denied with code 401000 |
| `Paging.RepliesDecide` | pkg/polarisapi/service_api.go:136-177 | for all three kinds of batch: when every reply tells, the registry is that of the unpaged operations exactly if every operation the replies withhold had nothing to do |
| `Services.TaskKeyInjective` | pkg/controller/types.go:51-53 | task keys of different services differ |
| `Controller.PolarisController.OnServiceAdd` | pkg/controller/service.go:83-102 | the effect on queue and resync cache |
| `Controller.PolarisController.OnServiceUpdate` | pkg/controller/service.go:34-80 | the effect on queue and both caches in all four cases |
| `Controller.PolarisController.OnServiceDelete` | pkg/controller/service.go:106-125 | the effect on queue and resync cache; placeholders are ignored |
| `Controller.PolarisController.Sync` | pkg/controller/service.go:132-212 | one step, for any server: its effect on cache, registry and queue, with the batches it sends recorded |
| `Controller.PolarisController.FilterPolarisMetadata` | pkg/controller/apis.go:356-389 | the instances with this cluster's marks, in order |
| `Controller.PolarisController.ProcessDelete` | pkg/controller/service.go:214-231 | a deletion sends exactly the filtered instances of its query, and fails exactly if its batch does |
| `Controller.PolarisController.ResyncServices` | pkg/controller/rsync.go:27-50 | a pass visits every entry once, each giving a task or a forced update; it panics exactly on short keys and does nothing while the server is down |
| `Controller.PolarisController.CheckHealth` | pkg/controller/rsync.go:75-97 | the effect of one probe on counter, flag and cache |
| `Resync.CacheExact` | pkg/controller/service.go:34-125 | in every run of informer events, steps, recoveries and resync passes, the resync cache holds exactly the services whose last delivered version is a Polaris service, and those whose deletion was lost |
| `Resync.SyncIsEvent` | pkg/controller/service.go:132-212 | those runs cover syncService: a step's effect on the service cache is nothing or one of their events, possible in any state |
| `Resync.PassEnqueuesAll` | pkg/controller/rsync.go:34-50 | in every run, every pass changes no cache and enqueues exactly one task per entry |
| `Resync.PassPanics` | pkg/controller/rsync.go:35 | in every run, a pass would panic exactly if a cached service has fewer than four letters |
| `Resync.PassMisses` | pkg/controller/rsync.go:34-45 | with task keys in both caches every lookup of a pass misses, and exactly the entries with fewer than four letters are too short |
| `Resync.HealthAfter` | pkg/controller/rsync.go:75-97 | after any history the server is marked down exactly if the trailing run of failures is at least three, and the counter is 0 to 2 |
| `Resync.ClearsExactly` | pkg/controller/rsync.go:78-82 | the cache is cleared exactly at successes that end a run of three or more failures |
| `ServiceSync.ManagedAlwaysCached` | pkg/controller/service.go:132-231 | in every run from the first start without recovery, restart, failed query or denied deletion, services with managed instances are in the service cache |
| `ServiceSync.VanishedCleared` | pkg/controller/service.go:144-161 | in every such run, success for a vanished service means that none of its managed instances remain and it is uncached |
| `ServiceSync.VanishedIff` | pkg/controller/service.go:144-161 | such a success leaves nothing managed exactly if there was nothing, or the service was cached, its query answered and no page or entry of the deletion denied |
| `ServiceSync.FailedQueryLeaks` | pkg/controller/apis.go:217-224 | a failed query at that moment leaks every instance |
| `ServiceSync.DeniedDeletionLeaks` | pkg/polarisapi/service_api.go:261-267 | every deletion that succeeds although access was denied somewhere leaks an instance |
| `ServiceSync.DenialHappens` | pkg/polarisapi/service_api.go:261-267 | a page answered with code 401000 records no error and removes nothing |
| `ServiceSync.RecoveryLeaks` | pkg/controller/rsync.go:78-82 | so does a recovery of the server |
| `ServiceSync.RestartLeaks` | pkg/controller/service.go:144-151 | and a restart, for services that vanished meanwhile |
| `ServiceSync.LeaksReached` | pkg/controller/service.go:132-231 | there is a run from the first start, in which a service appears, is registered and vanishes, that a recovery, a restart, a failed query or a denied deletion turns into a leak |
| `ServiceSync.LeakStays` | pkg/controller/service.go:146-151 | short of a late update delivery for that service, nothing the controller does removes a leaked instance |
| `ServiceSync.OthersNeverTouched` | pkg/controller/apis.go:356-389 | no step of the controller touches a foreign instance, whatever the server answers |
| `TaskQueue.WorkQueue.HandleTask` | pkg/controller/controller.go:403-430 | the effect of one call on the work queue, whether or not the task inserts itself |
| `TaskQueue.TriesCounted` | pkg/controller/controller.go:403-430 | with any number of workers and any insertions of other tasks, a task that always fails is processed exactly eleven times and then forgotten |
| `TaskQueue.DrainsEmpty` | pkg/controller/controller.go:403-430 | from n tasks without insertions every run has at most 32n steps, 11n of them calls, and one that cannot go on has emptied the queue |
| `TaskQueue.NeverDropped` | pkg/controller/service.go:154-159 | in every interleaving a task that inserts itself whenever it is processed is never dropped |
| `TaskQueue.CountsToEleven` | pkg/controller/controller.go:403-430 | in every run the failure counter is the number of failures since the last success, modulo eleven, however the task is inserted |
| `TaskQueue.DroppedIff` | pkg/controller/controller.go:418-427 | in every run, exactly when a task is gone after a processing: it succeeded or failed for an eleventh time since its last success, without re-insertion, and with no copy of it marked or waiting |
| `TaskQueue.DroppedAtEleventh` | pkg/controller/controller.go:418-427 | if it was not inserted again before, exactly its eleventh failure without its own re-insertion drops it |
| `TaskQueue.LeftoverRevives` | pkg/controller/service.go:154-159 | a task that inserted itself once can outlive an eleventh failure without re-insertion, in a run in which the delaying queue merges what already waits |
| `ConfigSync.ParseConfigFileRequest` | pkg/polarisapi/config_api.go:212-256 | the fields and exactly the tags of an uploaded file, in any map order |
| `ConfigSync.AllowSyncToConfigMap` | pkg/controller/configmap.go:630-656 | a file comes down exactly if it is marked for it and neither Kubernetes nor this cluster is its source |
| `ConfigSync.UploadRefused` | pkg/controller/configmap.go:98-107 | what a cluster uploads it refuses, whatever tags are added; so does every cluster if no source was claimed |
| `ConfigSync.UploadAllowedIff` | pkg/controller/configmap.go:630-656 | exactly when another cluster accepts an uploaded file, whatever tags were added to it |
| `ConfigSync.DownloadRefused` | pkg/controller/controller.go:363-388 | what was downloaded is never uploaded |
| `ConfigSync.NoCycle` | pkg/controller/configmap.go:53-180 | in every run over any clusters content crosses at most twice, and then ends in another cluster; users neither edit source marks nor remove tags |
| `ConfigSync.CrossesOnce` | pkg/controller/configmap.go:600-656 | if users, besides, leave the reserved annotation alone, nothing crosses twice |
| `ConfigSync.CrossesTwice` | pkg/controller/configmap.go:630-656 | there is a run in which content crosses twice |
| `ConfigWatcher.Watcher.PrepareNamespace` | pkg/controller/configmap.go:457-464 | both indexes get the namespace |
| `ConfigWatcher.Watcher.ReceiveGroups` | pkg/controller/configmap.go:479-499 | the effect of a groups response on both indexes |
| `ConfigWatcher.Watcher.ReceiveConfigFiles` | pkg/controller/configmap.go:519-580 | the effect of a files response on the index |
| `ConfigWatcher.IndexIs` | pkg/controller/configmap.go:534-575 | after any further mentions a file is in the index exactly if its last mention was allowed, in the highest version since it was last dropped |
| `ConfigWatcher.NeverBack` | pkg/controller/configmap.go:551-553 | versions never go back while a file is present |
| `ConfigWatcher.NeverMissing` | pkg/controller/configmap.go:438-540 | in every interleaving no response to a sent request meets a missing bucket, and at rest both indexes have the same groups |
| `ConfigWatcher.IndexInRuns` | pkg/controller/configmap.go:438-580 | the same in every interleaving of the two goroutines, while namespaces and buckets are still being made |
| `SegmentMaps.SlotExists` | pkg/util/map.go:235-240 | exactly which hashes lead to a slot |
| `SegmentMaps.SlotIsUnion` | pkg/util/map.go:235-240 | looking a key up in its slot is looking it up in the whole map |
| `SegmentMaps.SegmentMap.Put` | pkg/util/map.go:156-161 | as on a plain map |
| `SegmentMaps.SegmentMap.Get` | pkg/util/map.go:188-195 | as on a plain map |
| `SegmentMaps.SegmentMap.Del` | pkg/util/map.go:197-205 | as on a plain map, reporting whether the key was there |
| `SegmentMaps.SegmentMap.PutIfAbsent` | pkg/util/map.go:176-186 | stores only if absent, and then hands back the zero value |
| `SegmentMaps.SegmentMap.ComputeIfAbsent` | pkg/util/map.go:163-174 | computes only if absent, and hands back what is in the map |
| `SegmentMaps.SegmentMap.Range` | pkg/util/map.go:207-219 | visits every entry of the plain map exactly once |
| `SegmentMaps.SegmentMap.Count` | pkg/util/map.go:221-233 | the size of the plain map |
| `Executor.WorkerSound` | pkg/util/scheduler.go:105-121 | in every run executed then pending is what was accepted, at most 128 pending, nothing accepted after close |
| `Executor.ClosesIff` | pkg/util/scheduler.go:159-164 | a worker can get to close exactly if there is room for every sender that holds the lock |
| `Executor.EveryRunCloses` | pkg/util/scheduler.go:159-164 | with that room every run closes, after one step for each of those senders and one more |
| `Executor.StopCanHang` | pkg/util/scheduler.go:105-121 | 129 tasks submitted before the stop bring a worker into a state from which it never closes |
| `Executor.AffinityInOrder` | pkg/util/scheduler.go:75-82 | with at least two workers, tasks under one key run on one worker in the order accepted |
| `Executor.LastWorkerIdle` | pkg/util/scheduler.go:80 | the last worker never has a keyed task |
| `Executor.DelayQueue.Tick` | pkg/util/scheduler.go:186-213 | every due entry fires once and is removed, interval tasks too |

## Left out

- InjectionSettles: assumes that every mount of the pod names its volume, as the Kubernetes API demands, and that the template is the same each time; the source renders it anew from the changed pod.
- ReinjectionKeepsNames: assumes that the status survives its JSON encoding and that something is injected, since an empty status is not read back.
- JavaIntended: excludes templates that bring the agent mount themselves, where the two lists can coincide by accident.
- UpdateContainer: an environment entry has a name and a value; that rewriting JAVA_TOOL_OPTIONS drops a `valueFrom` is not modelled.
- UpdateContainer: Go writes the extended entry into the pod's own slice as well; nothing later in the patch reads it.
- EndpointsServed: says nothing of protocol, health and metadata, which updates do not bring in line (see StillDiffers).
- ReconcileSettles: the server's own heartbeat bookkeeping is not modelled, so health changes only through the controller's calls.
- SplitArray: takes the ceiling on integers, which agrees with the source's floating-point one below 2^53; a page size of zero divides by zero there.
- AppliesOnce: assumes CPU amounts that fit the 64-bit integers they come in.
- WantedHolds: takes the ceiling on integers; the source divides floating-point numbers, which agrees below 2^53.
- ManagedAlwaysCached: assumes that services do not override their Polaris name, takes each syncService step as atomic, and starts from a controller that has registered nothing; after a restart it does not hold (see RestartLeaks).
- DeletionComplete: assumes that a reply tells the truth about its page: HTTP 200 or code 200000 that all of it was carried out, code 401000 none of it, and entries exactly those with code 200000.
- RepliedReconcile: assumes besides that entry 400201 is answered only for a key that is present and entry 200002 only for an update that changes nothing; of a lost or unreadable reply nothing is known, so batches with such replies are left to PagedReconcile.
- Sync: creating the namespace and the service is a parameter that succeeds or fails.
- CacheExact: takes a resync pass as one step; deliveries do not fall between two of its entries.
- NoCycle: users may write and edit anything but the source mark of an object, and only add tags to a file; one who edits the mark or removes a tag makes a new object of it.
- BuildAddresses: an endpoint address without a target reference, on which the source panics, is not modelled.
- AffinityInOrder: needs two workers; with one the modulus is zero and the call panics.
- SegmentMap.Put: requires, as do the other operations, a hash that leads to a slot (see SlotExists).
- SegmentMap.Count: as for Range, what a caller sees while other goroutines write between the slots is not modelled.
- OnServiceUpdate: the wish of the service's namespace is a parameter, fixed during one event.
- Upload marks written through the informer's shared ConfigMap object: `pkg/controller/configmap.go:103-107` edits the cached object itself when the task is not an addition; the model prepares a copy.
- The ConfigMap half of resync: it has the shape of the service half, except that a miss enqueues a task of the service kind (`pkg/controller/rsync.go:60`), which then looks up a service of that name.
- ConfigMap caches and their deletion path, which repeat the service side with fewer cases.
- Sync: the alias and label updates of a changed service. Their errors are only logged; but `pkg/controller/apis.go:56-58` writes the labels into the metadata of the service as the server returned it, and panics inside the step if there are labels and it returned none.
- ProcessSyncInstance: a metadata annotation that reads `null` leaves the map of `pkg/controller/apis.go:404-409` nil, so that writing the marks into it panics; `Decoded` always holds a map and cannot express that.
- The preparation of the java-agent init container, sidecar environment variables, templates, annotation validators and the injection policy table: settled by case distinction.
- JSON and YAML codecs, HTTP, gRPC, tokens, the Kubernetes client and the Polaris SDK: parameters or steps that succeed or fail.
- Timers and wall-clock time, logging, metrics, leader election, options and configuration reloading.
