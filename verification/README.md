# Verified models of k8storagex

This project models the parts of k8storagex whose correctness is hardest to see from
the code, and proves properties of them for all inputs, all runs and all reachable states.

| part | files | source |
|---|---|---|
| image garbage collector | `Images.dfy`, `Builds.dfy`, `Prune.dfy`, `PruneExamples.dfy` | `internal/layerfs/prune.go` |
| cache contents | `LayerStore.dfy` | `internal/layerfs/store.go` |
| cluster-wide cache status and commit lock | `CacheStatus.dfy`, `CacheInvariants.dfy`, `CacheSync.dfy`, `CacheRetries.dfy`, `CacheRuns.dfy`, `CommitLock.dfy`, `SyncedStore.dfy` | `internal/ksync` |
| volume lifecycle | `Lifecycle.dfy`, `LifecycleProofs.dfy`, `ProvisioningProgress.dfy`, `DeprovisioningProgress.dfy`, `ReclaimPolicy.dfy`, `FailedPods.dfy`, `ManagerCrash.dfy`, `Names.dfy` | `internal/controllers`, `internal/utils/pod.go` |
| configuration of Pods | `PodTemplate.dfy`, `Annotations.dfy`, `Registry.dfy` | `internal/utils`, `internal/controllers/storageprovisioner_registry.go` |

`dafny verify dfyconfig.toml` checks everything.

## How to read the models

- **Garbage collector.** `ImageStore` is the store with its image list, changed in place. Every call
  into the store may fail (`fails`), and at every call any images may be impossible to open
  (`blind`, by call number and image); a read of such an image is blind. Both are arbitrary.
  `Sighted` says that every image could be opened throughout a run, `Quiet` that no call failed
  either ("without failures" below). Ghost results give the images in the order in which they were
  deleted, and for each the store calls of its own search for children, one search after the other.
  `SafeUnlessMissed` says what holds of the deletions in any run: a deletion is safe (children first)
  unless its search missed the image itself or every child that was left.
  `ChildOf` is the relation of `getChildren`, `ParentOf` the narrower one of `getParent`; `Prunable`
  is defined by chains of child links, independently of the algorithm.
  `Tidy` collects the hypotheses of exactness: known layers, diff ids that agree with histories,
  and at most one parent per image.
- **Cache contents.** `CacheStore` sits on top of `ImageStore` and uses its `Prune`. Files of an
  image disappear with the image. `View` is what users see, mount directories on the host included;
  `Step` and `Run` specify it, `Succeeds` says when no error is returned. Configurations and layers
  of new images are arbitrary. The store knows caches by the names of their images; `Mirrors` relates
  that to caches as users name them.
- **Cache status.** `CacheObject` changes a status in place, as the modify functions do, and is
  proved against functions on values. `CacheSync` interleaves any number of `updateCache` calls
  step by step, for any modify function, with failures, lost replies, edits and deletions by
  others; a log records what took effect. `CacheRuns` and `CommitLock` reason about that log.
  `SyncedStore` adds one node with its live volumes; each of its updates is served, denied, or
  served with its reply lost.
- **Lifecycle.** The world is seen from one claim UID. Both controllers take one step per API
  request and keep copies of what they read; everything else may happen in between, including
  crashes of the manager. `Names` shows why one UID can be looked at alone. Reads are current, one
  reconcile runs per key, the reclaim policy of a volume does not change, and only the controllers
  touch their finalizer, annotations, Pods and the claim reference.
- **Time** is one number per modify function, in seconds, on a clock shared by all nodes.

## Where the code does not do what it seems to intend

The models follow the code. The deviations are results of the proofs:

- The commit scan (`internal/ksync/sync.go:189`) takes a volume that does not commit for a running
  commit (`GrantedIff`), so no commit is ever granted (`NoCommitEver`). `CommitLock` gives the
  intended scan and proves exclusion for it; it looks the volume up again after the scan because the scan replaces
  the list that the pointer points into.
- The generation reported with a failed unmount comes from a shared loop variable
  (`internal/ksync/sync.go:143-147`); `ReportIsRightIff` says when it is the right one,
  and `WrongGenerationReported` is a run in which it is not.
- A second registration of a volume is accepted silently (`internal/ksync/sync.go:39`). If the mount
  then fails because the volume exists, the deferred unregistration removes the entry of the live
  volume (`SecondMountUnlists`); `MountAgrees` and `UnmountAgrees` say exactly when node and cluster
  still agree after an operation.
- Whether an unmount is reported as a success depends on the unregistration alone
  (`internal/ksync/syncedstore.go:53`, `SynchronizedStore.Unmount`).
- The error of unmounting the given directory is overwritten when the container is looked up
  (`internal/layerfs/store.go:199-207`), so the volume is committed and deleted and the request
  succeeds (`StuckDirectoryIsIgnored`, `UnmountLeavesDirectory`); `DirectoryLeftIff` says when a
  directory is left behind, and `DirectoryBlocks` that it cannot be mounted to any more.
- A mount that fails is undone, but errors of undoing it are discarded
  (`internal/layerfs/store.go:121-125`, `internal/layerfs/store.go:145-150`), so a container or a
  directory may stay (`FailedMountLeavesBoth`) and block its name (`VolumeBlocks`,
  `DirectoryBlocks`); `FailedMountUndoneIff` says exactly when nothing stays.
- Whether `Prune` reports an error depends on the list order although what it deletes does not
  (`PruneErrorDependsOnOrder`): it complains about an image that an earlier removal has already
  taken; `Complains` is the exact condition.
- An image that cannot be opened counts as having no configuration (`internal/layerfs/prune.go:349-352`),
  so a survivor may lose its parent (`PruneOrphansUnopenable`); `LosesParentIff` says exactly when.
  An image that cannot be opened for a moment does the same (`PruneOrphansOnBlindRead`), but only if it
  is the parent itself or there is no child left that can be opened (`OnlyOutagesLoseParents`), and
  at most one image per call with an outage goes too early (`OutagesBoundUnsafe`).
- Two caches share an image name if a namespace contains a slash (`LocalImageNamesCollide`).
- Storage of a provisioner that succeeded before its volume was made is lost when the claim goes
  (`LostReachable`, `LostForever`; `internal/controllers/persistentvolumeclaim_controller.go:179`).
  `FreeableIff` says exactly when storage can be freed once the claim is gone.
- A missing annotation on a claim whose volume exists is reported through a nil error and crashes
  the manager (`internal/controllers/persistentvolumeclaim_controller.go:206-208`,
  `PanicReachable`), over and over (`CrashLoop`); `ReconcilePanicsIff` says exactly when.
- A failed deprovisioner Pod is never removed and keeps the volume for good (`FailedReachable`,
  `FailedForever`, `DeprovisioningCanEndIff`). A failed provisioner Pod stays while the claim keeps its node and its
  annotations and is not deleted, and only then (`FailedPodGoesIff`, `ProvisioningCanEndIff`).
- The deprovisioner Pod is built from the template that the provisioner Pod changed in place
  (`internal/utils/podtemplate.go:53-62`); `UntouchedIff` says exactly when that shows, and
  `DeprovisionerInheritsCommand` builds a deprovisioner that runs the provisioner's command.
- When a StorageProvisioner is removed, the empty key is deleted and its own key keeps resolving
  (`internal/controllers/storageprovisioner_controller.go:71-75`, `RemovedStillResolves`);
  `ForgetMissing` says exactly which keys resolve afterwards.

## Model

| member | source | states |
|---|---|---|
| Prune.HistoriesDiffer | internal/layerfs/prune.go:363-393 | the entry-by-entry comparison is inequality of histories |
| Prune.ImageStore.GetParent | internal/layerfs/prune.go:396-453 | an image it names is a stored parent of the child; if every image could be opened, the answer is the first listed image whose history the child extends by one and whose diff ids and top layer fit, or none; it errs on an unknown layer, and otherwise only on a failing call |
| Prune.ImageStore.MatchParent | internal/layerfs/prune.go:415-450 | a positive answer is always right; the test decides the parent relation if every image could be opened |
| Prune.ImageStore.UsesAllLayers | internal/layerfs/prune.go:436-442 | the loop decides the prefix relation on diff ids |
| Prune.ImageStore.GetChildren | internal/layerfs/prune.go:456-502 | listed ids mean that there are children; none are listed although there are some only if the parent or all of them could not be opened; if every image could be, the list of all children, cut after `max` of them |
| Prune.ImageStore.MatchChild | internal/layerfs/prune.go:469-495 | a positive answer is always right; a child is denied only if it could not be opened; an unknown layer is an error; the relation ignores diff ids |
| Prune.ImageStore.ImageIsParent | internal/layerfs/prune.go:332-341 | "has a child" is always right, and "has none" is unless the search missed the image or all its children |
| Prune.ImageStore.GetImageConfig | internal/layerfs/prune.go:343-361 | an image that is stored but cannot be opened, for good or at this moment, has no configuration; an image that is not stored is an error |
| Prune.ImageStore.RunningContainers | internal/layerfs/prune.go:248-260 | non-empty iff a container uses the image |
| Prune.ImageStore.DeleteImage | internal/layerfs/prune.go:219-221 | the store's deletion: exactly one unused writable image goes, or nothing |
| Prune.ImageStore.RemoveImage | internal/layerfs/prune.go:214-245 | under any failures only untagged or asked-for, unused, writable images go, and each deletion is safe unless its own search for children missed the image or every child left; without failures everything that lost its last child is gone, must stay, or keeps another child |
| Prune.ImageStore.RemoveParents | internal/layerfs/prune.go:222-243 | the climbing loop terminates under any failures, and each deletion is safe unless its own search for children missed the image or every child left, also past images that could not be deleted |
| Prune.ImageStore.DeleteOne | internal/layerfs/prune.go:34-148 | one round under any failures: only permitted images go, and each deletion is safe unless its own search for children missed the image or every child left; without failures it errs iff no removable image of that id is left |
| Prune.ImageStore.DeleteImages | internal/layerfs/prune.go:32-151 | for every id list and under any failures: only permitted images go, and each deletion is safe unless its own search for children missed the image or every child left, so the whole order is safe if all could be opened; without failures every listed image is gone, must stay or has a surviving child, and the error result is characterised exactly |
| Prune.ImageStore.FindDanglingImages | internal/layerfs/prune.go:154-168 | the ids of the untagged images in list order |
| Prune.ImageStore.Prune | internal/layerfs/prune.go:21-28 | under any failures only untagged, unused, writable images go, each deletion is safe unless its own search for children missed the image or every child left, and no more deletions are unsafe than there were calls with an outage; without failures exactly the prunable images go, and an error is reported iff some listed image complains |
| Images.ParentIsCounted | internal/layerfs/prune.go:396-502 | `getParent(c) = p` implies that c is among `getChildren(p)` |
| Images.FirstMatchIsParent | internal/layerfs/prune.go:415-450 | of several matching images the one listed first is the parent |
| Builds.BuildIsChild | internal/layerfs/prune.go:396-502 | for every base and every way to build on it (metadata only, a new layer, no layers) the new image is listed as a child, the base matches as its parent, and it is not prunable while the new image is tagged |
| Builds.UnrelatedIsNoChild | internal/layerfs/prune.go:456-502 | an image with another earlier history entry or unrelated layers is neither a child nor in the way of a deletion |
| Builds.OtherLayersOtherParent | internal/layerfs/prune.go:432-445 | an image whose diff ids do not continue those of another does not have it as its parent |
| Builds.BuildThenPrune | internal/layerfs/prune.go:21-28 | an image is built, tagged and pruned around, with any failing calls: if all images could be opened, the child is listed and both images stay |
| Images.ChainDepth | internal/layerfs/prune.go:429-449 | every child link adds one history entry, so no image is its own descendant |
| Images.PrunableStep | internal/layerfs/prune.go:231-235 | prunable iff untagged, unused, writable and all children prunable |
| Images.PrunableIgnoresOrder | internal/layerfs/prune.go:157-165 | which images are prunable does not depend on the list order |
| Images.SafeOrderKeepsParents | internal/layerfs/prune.go:116-145 | after every prefix of the deletions, no survivor has lost an image it is a child of |
| Images.OnlyOutagesLoseParents | internal/layerfs/prune.go:130-145 | in any run and after every prefix of the deletions, a survivor has lost an image it is a child of only if that image, or every child of it that was left, could not be opened at some call of the search for its children |
| Images.OutagesBoundUnsafe | internal/layerfs/prune.go:349-352 | in any run the number of deletions that come before one of their children is at most the number of calls at which a stored image could not be opened |
| Images.SafeOrderIsPrunable | internal/layerfs/prune.go:116-145 | safe deletions of untagged images stay within the prunable images |
| Images.ClimbDelete | internal/layerfs/prune.go:222-243 | deleting an image can unblock only its parent, which is where the removal climbs to |
| Images.ClimbPast | internal/layerfs/prune.go:233-242 | climbing past an image that stays leaves nothing unblocked |
| Images.GoneIff | internal/layerfs/prune.go:34-148 | while ids are worked on, an image is gone iff it is prunable and all its leaves had their turn |
| Images.SweptIsExact | internal/layerfs/prune.go:32-151 | once all untagged ids had their turn, exactly the prunable images are gone, in every list order |
| Images.TurnComplains | internal/layerfs/prune.go:35-79 | an id fails at its turn iff its image must stay or was taken by an earlier removal |
| Images.NothingLeftToPrune | internal/layerfs/prune.go:21-28 | pruning again finds nothing to delete |
| Images.OnlyUnopenableLoseParents | internal/layerfs/prune.go:349-352 | after every prefix of a safe deletion order, judged by the stored configurations, a survivor has lost its parent only if one of the two cannot be opened |
| Images.LosesParentIff | internal/layerfs/prune.go:349-352 | once exactly the prunable images are gone, a survivor has lost its parent iff one of the two cannot be opened, the parent is prunable and the child is not |
| PruneExamples.PruneOrphansUnopenable | internal/layerfs/prune.go:349-352 | a run without failures in which `Prune` deletes the parent of a tagged image that cannot be opened |
| PruneExamples.PruneOrphansOnBlindRead | internal/layerfs/prune.go:349-352 | a run without failing calls in which one outage at one call makes `Prune` delete the parent of a tagged image, so the bound is attained |
| PruneExamples.PruneErrorDependsOnOrder | internal/layerfs/prune.go:35-79 | for one image and its child, `Prune` deletes both and returns an error iff the child is listed first |
| LayerStore.CacheStore.Mount | internal/layerfs/store.go:89-171 | the volume starts with the files of the cache's image, or empty, at a new directory if one is given; it fails iff the volume or the directory exists or it cannot be mounted; what a failed mount leaves behind, for every outcome of undoing it |
| LayerStore.FailedMountUndoneIff | internal/layerfs/store.go:116-150 | a failed mount to a free directory leaves nothing behind iff the directory can be removed and the container deleted, or the volume existed before |
| LayerStore.FailedMountLeavesBoth | internal/layerfs/store.go:116-150 | a failed mount that leaves a volume and a directory |
| LayerStore.VolumeBlocks | internal/layerfs/store.go:128-144 | a volume that is left behind cannot be mounted until an unmount deletes it |
| LayerStore.CacheStore.Unmount | internal/layerfs/store.go:186-259 | what becomes of cache, volume and host directories in every combination of failures, and exactly when an error is returned: an error from the given directory does not count, one from the recorded directory or the container does; the image id returned is that of the new image with the volume's files, of the volume's base if nothing changed, or empty |
| LayerStore.CacheStore.UnmountAndDelete | internal/layerfs/store.go:261-272 | the directory is gone unless it cannot be removed |
| LayerStore.StuckDirectoryIsIgnored | internal/layerfs/store.go:199-207 | a given directory that cannot be removed changes neither the result nor the commit |
| LayerStore.DirectoryLeftIff | internal/layerfs/store.go:199-222 | a volume's directory survives a successful unmount iff it was the given one and could not be removed |
| LayerStore.UnmountLeavesDirectory | internal/layerfs/store.go:199-207 | a successful unmount that leaves the directory |
| LayerStore.DirectoryBlocks | internal/layerfs/store.go:116-126 | a directory that is left behind cannot be mounted to until an unmount removes it |
| LayerStore.CacheStore.Commit | internal/layerfs/store.go:274-312 | a changed or new volume becomes the cache's contents under a new image, whose id is returned, on top of the layer of its base; an unchanged one changes nothing and returns the base; no other cache or live volume notices |
| LayerStore.CommitMakesChild | internal/layerfs/store.go:300 | the new image is a child of its base if the builder added a layer and a history entry |
| LayerStore.CommitKeepsBase | internal/layerfs/store.go:300 | so the base is not prunable while the new image bears the cache's name |
| LayerStore.CacheStore.Collect | internal/layerfs/prune.go:21-151 | a garbage collection with any failures changes nothing that a mount or a live volume sees |
| LayerStore.CacheStore.Perform | internal/layerfs/store.go:89-259 | every run of mounts, writes, unmounts and collections, with any configurations and layers of new images and any failures, refines the map from image names to contents, and the map from namespaces and caches to contents if no namespace contains a slash |
| LayerStore.RunMirrors | internal/layerfs/store.go:330-332 | without slashes in namespaces, a run over image names shows what the run over caches shows |
| LayerStore.CacheStore.FindImage | internal/layerfs/store.go:130-144 | the image that bears the cache's name, or none |
| LayerStore.CoherentCollect | internal/layerfs/prune.go:130-138 | deletions of untagged, unused images keep every named image and every image below a live volume |
| LayerStore.ByNameCommitted | internal/layerfs/store.go:300-309 | a commit moves the name to the new image and leaves all other names alone |
| LayerStore.MountSeesLatestCommit | internal/layerfs/store.go:128-144 | a mount yields the files of the latest commit to its cache, whatever else happened since |
| LayerStore.SuccessfulMountShows | internal/layerfs/store.go:128-171 | a successful mount shows the cache's files unchanged and occupies its directory |
| LayerStore.WriteShows | README.md:41-43 | a write changes exactly the file it names |
| LayerStore.SuccessfulCommitStores | internal/layerfs/store.go:274-312 | after a commit without an error the cache has the files of a volume that was written to or is new, even an empty one |
| LayerStore.UnmountEffects | internal/layerfs/store.go:223-241 | a cache changes only by a commit that was asked for and succeeded; the volume goes after failures as well, unless cancelled |
| LayerStore.VolumeIsIsolated | README.md:41-43 | a live volume sees its snapshot plus its own writes only |
| LayerStore.CommittedWritesAreRestored | e2e/layerfs/tests.bats:36-64 | what was written and committed is what the next volume of the cache starts with |
| LayerStore.LocalImageNamesDiffer | internal/layerfs/store.go:330-332 | image names tell namespace and cache apart if namespaces have no slash |
| LayerStore.ImageNameExample | internal/layerfs/store.go:330-332 | the name of one cache's image, spelled out |
| LayerStore.LocalImageNamesCollide | internal/layerfs/store.go:330-332 | every namespace with a slash shares names with another namespace |
| CacheStatus.CacheObject.UpsertNode | internal/ksync/sync.go:153-166 | the node of that name, added if missing, with its volumes kept |
| CacheStatus.CacheObject.AddVolume | internal/ksync/sync.go:120-138 | a new volume with its generation, or an error iff it is registered already |
| CacheStatus.CacheObject.RemoveVolume | internal/ksync/sync.go:140-151 | the volume is gone from the node; which generation is reported |
| CacheStatus.CacheObject.KeepOthers | internal/ksync/sync.go:142-148 | the loop keeps the other volumes and reports the generation of the last one listed if it keeps any |
| CacheStatus.CacheObject.FindVolume | internal/ksync/sync.go:168-180 | finds exactly the registered volumes |
| CacheStatus.CacheObject.CommitInProgress | internal/ksync/sync.go:184-209 | stops at the first volume without a running commit and drops it if it timed out |
| CacheStatus.CacheObject.Register | internal/ksync/sync.go:31-42 | the modify function of a registration, with the image it captures |
| CacheStatus.CacheObject.PrepareCommit | internal/ksync/sync.go:44-63 | the modify function of a commit request, with the verdict it captures |
| CacheStatus.CacheObject.Unregister | internal/ksync/sync.go:72-85 | the modify function of an unregistration |
| CacheInvariants.RegisterKeeps | internal/ksync/sync.go:31-42 | a registration keeps unique names, bounded and distinct generations, counts itself, and moves the generation only for a new volume of a writable cache |
| CacheInvariants.RegisterStores | internal/ksync/sync.go:31-42 | which image is stored and answered, and the whole entry of a new volume |
| CacheInvariants.UnregisterKeeps | internal/ksync/sync.go:72-85 | so does an unregistration, after which the volume is not registered and the node carries the failure, or none |
| CacheInvariants.UnregisterStores | internal/ksync/sync.go:72-85 | exactly the volume goes, the node is touched, and its last error is the failure with the reported generation, or none |
| CacheInvariants.RegisterKeepsOthers | internal/ksync/sync.go:120-138 | a registration changes no other volume's registration |
| CacheInvariants.UnregisterKeepsOthers | internal/ksync/sync.go:140-151 | an unregistration changes no other volume's registration |
| CacheInvariants.GrantedIff | internal/ksync/sync.go:44-63 | as written, a commit is granted iff the volume may be committed and every volume of the cache is in the middle of a commit |
| CacheInvariants.GrantLocks | internal/ksync/sync.go:58-61 | a granted commit locks the asking volume and changes nothing else |
| CacheInvariants.TimedOutIsDropped | internal/ksync/sync.go:182-205 | the first volume that is not committing decides; one locked for more than fifteen minutes is dropped and its node carries the error |
| CacheInvariants.NeverGranted | internal/ksync/sync.go:184-209 | without locks a commit request is refused and changes nothing |
| CacheInvariants.ReportIsRightIff | internal/ksync/sync.go:143-147 | the reported generation is the removed volume's iff another volume stays and the last one listed has that generation |
| CacheRuns.WrongGenerationReported | internal/ksync/sync.go:140-151 | a run of three calls in which a failed unmount is recorded with the generation of another volume |
| CacheSync.Linearised | internal/ksync/sync.go:96-118 | in every run and for every modify function the stored object is the fold of the calls that took effect, in the order of their times; a call takes effect at most once, exactly if it returned no error or lost its reply, after it began and before it returned; its answer is from the attempt that took effect |
| CacheSync.RunInv | internal/ksync/sync.go:96-118 | the invariant of the optimistic retry loop in every interleaving |
| CacheSync.ApplyInv | internal/ksync/sync.go:115-116 | a write of a current copy takes effect exactly once |
| CacheSync.GivesUpOnlyWhenOvertaken | internal/ksync/sync.go:19-25 | a conflict is returned only after ten events since the call began, and the call took no effect |
| CacheRetries.GivesUpAfterTen | internal/ksync/sync.go:19-25 | in every run a call returned a conflict iff exactly ten of its writes were refused |
| CacheRetries.RefusedReadsAgain | internal/ksync/sync.go:96-118 | a call whose write is refused for the n-th time, n < 10, reads again |
| CacheRetries.RetrySucceeds | internal/ksync/sync.go:96-118 | a call that was overtaken fewer than ten times and is undisturbed then takes effect exactly once, on the object of that moment |
| CacheRetries.RefusedWasOvertaken | internal/ksync/sync.go:115-116 | a write is refused only if something that is not this call's took effect since its last read |
| CacheRetries.TenAttempts | internal/ksync/sync.go:19-25 | from every reachable state, a call overtaken nine times still tries and one overtaken ten times gives up |
| CacheSync.MissingIsReported | internal/ksync/sync.go:98-103 | a call other than a registration reports a missing object and creates none |
| CacheSync.OnlyRegistrationsCreate | internal/ksync/sync.go:98-106 | in every run only registrations create the object |
| CacheSync.UndisturbedCallSucceeds | internal/ksync/sync.go:96-118 | from every reachable state, a call that nobody disturbs takes effect at its first attempt, after creating a missing object if it registers a volume |
| CacheRuns.StatusSound | internal/ksync/sync.go:120-166 | in every run node names are unique, volume names unique per node, generations bounded, those of committable volumes distinct, and nothing is locked |
| CacheRuns.GenerationGrows | internal/ksync/sync.go:127-130 | the generation of an object never decreases |
| CacheRuns.UsedCounts | internal/ksync/sync.go:38 | the usage counter counts the registrations that took effect |
| CacheRuns.ImageStays | internal/ksync/sync.go:33-37 | the first image set on an object stays |
| CacheRuns.RegistrationsAgree | internal/ksync/sync.go:32-41 | all registrations after one with an image are answered the image that one was, which is its own default if none was stored before |
| CacheRuns.NoCommitEver | internal/ksync/sync.go:44-63 | as written, no commit request is granted in any run |
| CacheRuns.EffectOnRegistration | internal/ksync/sync.go:31-94 | only the events of a volume change its registration |
| CacheRuns.LastEventDecides | internal/ksync/sync.go:120-151 | a volume is registered iff its last event was a registration |
| CacheRuns.LastCallDecides | internal/ksync/sync.go:96-118 | in every interleaving, if all other calls for a volume returned before this one began and the object was not deleted since, the volume is registered iff this call was a registration |
| CommitLock.RepairedLocks | internal/ksync/sync.go:182-209 | intended scan: a granted lock is the only one, a refusal keeps the locks or drops them all as timed out |
| CommitLock.OneLock | internal/ksync/sync.go:44-63 | intended scan: names are unique, and at most one entry of the volume lists of a cache, over all nodes, is locked |
| CommitLock.GrantPersists | internal/ksync/sync.go:58-61 | intended scan: a granted lock stays until it is given up or found timed out |
| CommitLock.GrantsExclude | internal/ksync/sync.go:44-63 | intended scan: of two grants in a run the second comes after the first timed out, unless its volume was unregistered |
| SyncedStore.SynchronizedStore.Update | internal/ksync/sync.go:96-118 | one update among those of other nodes: which error it returns, what it logs and what it makes of the registration and of the node's last error, for every outcome |
| SyncedStore.SynchronizedStore.Mount | internal/ksync/syncedstore.go:25-41 | it succeeds iff names are given, the registration is served and the store mounts a volume it does not hold; what it leaves on the node, also when a failed mount is not undone; a failure is the node's last error; exactly when cluster and node agree on the volume afterwards |
| SyncedStore.SynchronizedStore.Unmount | internal/ksync/syncedstore.go:43-61 | it succeeds iff names are given and the unregistration is served, whatever the store does; a failure of the store is the node's last error; exactly when cluster and node agree on the volume afterwards |
| SyncedStore.SecondMountUnlists | internal/ksync/syncedstore.go:35-40 | a live volume that the cluster does not list |
| SyncedStore.SynchronizedStore.Perform | internal/ksync/syncedstore.go:25-61 | for every sequence of operations among updates of other volumes: all results, whether the volume is live, that it is registered iff the last operation was a successful mount, and exactly when cluster and node agree |
| LifecycleProofs.NextKeeps | internal/controllers/persistentvolumeclaim_controller.go:91-292 | every step of either controller or of the environment keeps the invariant |
| LifecycleProofs.NoEarlyFree | internal/controllers/persistentvolume_controller.go:102-183 | a deprovisioner Pod exists or has succeeded only after the claim is gone |
| ReclaimPolicy.ReferenceDroppedOnlyWithoutClaim | internal/controllers/persistentvolume_controller.go:133-183 | in every run, the claim reference is dropped only after no claim of that name was found and the provisioner was known |
| ReclaimPolicy.AlwaysReadToFree | internal/controllers/persistentvolume_controller.go:102-140 | in every run, the volume controller works only on volumes it read as marked, held and not bound, in at most two attempts |
| ReclaimPolicy.ConflictTriesOnceMore | internal/controllers/persistentvolume_controller.go:167-177 | a conflict is met by reading and asking once more, and once only |
| ReclaimPolicy.VerdictsStop | internal/controllers/persistentvolume_controller.go:145-156 | a failed request, an existing claim of that name, an unknown provisioner or an unreadable spec ends the reconcile and changes no object |
| ReclaimPolicy.UnbuiltClaimPod | internal/controllers/persistentvolumeclaim_controller.go:228-262 | a Pod that cannot be built is not started and a volume whose spec is unreadable is not made |
| ReclaimPolicy.UnbuiltVolumePod | internal/controllers/persistentvolume_controller.go:216-236 | the same for the deprovisioner Pod |
| LifecycleProofs.GivenUpOnlyWhenFree | internal/controllers/persistentvolume_controller.go:113-128 | the finalizer is dropped only after a success was recorded and the Pod is absent |
| LifecycleProofs.NeverFreedAgain | internal/controllers/persistentvolume_controller.go:209-240 | storage is freed at most once, and no deprovisioner Pod is created after a success |
| LifecycleProofs.ClaimOutlivesProvisioner | internal/controllers/persistentvolumeclaim_controller.go:104-133 | a provisioner Pod exists only while its claim does with the finalizer; once the claim is gone a volume to be reclaimed is marked |
| ReclaimPolicy.RetainedIsNeverFreed | internal/controllers/persistentvolumeclaim_controller.go:184-188 | in every run, a volume made to be retained is not marked, never freed and has no deprovisioner Pod, whatever becomes of the claim, unless somebody else marks it |
| ReclaimPolicy.StepRetains | internal/controllers/persistentvolumeclaim_controller.go:171-197 | no step but a deletion from outside marks a volume that is to be retained |
| ReclaimPolicy.PolicyIsStored | internal/controllers/persistentvolumeclaim_controller.go:295-318 | a volume is made with the policy of the template |
| ReclaimPolicy.PolicyForever | internal/controllers/persistentvolumeclaim_controller.go:295-318 | and carries it while it exists, in every run |
| LifecycleProofs.NoProvisionerAfterVolume | internal/controllers/persistentvolumeclaim_controller.go:197-262 | a provisioner Pod is created only for a claim with the finalizer and a node that never had a volume |
| LifecycleProofs.ForeignClaimFinalizersKept | internal/controllers/persistentvolumeclaim_controller.go:104-133 | no finalizer of a claim is dropped but ours, as the last one, and the protection that the claim waives |
| LifecycleProofs.ForeignVolumeFinalizersKept | internal/controllers/persistentvolume_controller.go:119-124 | no finalizer of a volume is dropped but ours |
| LifecycleProofs.WhoStartsPods | internal/utils/pod.go:23-33 | Pods come into being only in the step that creates them |
| LifecycleProofs.VolumeHasStorage | internal/controllers/persistentvolumeclaim_controller.go:263-283 | a volume exists only for provisioned storage and is kept while its claim exists |
| LifecycleProofs.RefinesStorage | internal/controllers/persistentvolume_controller.go:87-250 | the controllers refine a storage that is absent, provisioned, freed, in this order |
| LifecycleProofs.LostForever | internal/controllers/persistentvolumeclaim_controller.go:176-181 | storage without a volume is never freed once the claim is gone |
| LifecycleProofs.LostReachable | internal/controllers/persistentvolumeclaim_controller.go:176-181 | a run that loses storage that way |
| FailedPods.FreeableIff | internal/controllers/persistentvolumeclaim_controller.go:176-181 | once the claim is gone, its storage can be freed by some run iff the volume was made and no deprovisioner failed on it |
| ManagerCrash.ReconcilePanicsIff | internal/controllers/persistentvolumeclaim_controller.go:206-208 | a reconcile crashes the manager iff the claim is neither bound nor deleted, its volume exists and a required annotation is empty |
| ManagerCrash.PanicsIff | internal/controllers/persistentvolumeclaim_controller.go:206-208 | in every run no other step crashes it |
| ManagerCrash.PanicReachable | internal/controllers/persistentvolumeclaim_controller.go:206-208 | a run that crashes the manager |
| ManagerCrash.CrashLoop | internal/controllers/persistentvolumeclaim_controller.go:206-208 | until somebody acts, every restart ends in the next crash |
| ProvisioningProgress.ReconcileProgresses | internal/controllers/persistentvolumeclaim_controller.go:150-292 | each reconcile of a claim waits for the Pod, is done, or lowers a rank |
| ProvisioningProgress.ProvisioningEndsIff | internal/controllers/persistentvolumeclaim_controller.go:197-292 | when all requests succeed and node and annotations stay, the claim gets its volume and the Pod is cleaned up iff the Pod has not failed |
| FailedPods.ProvisioningCanEndIff | internal/controllers/persistentvolumeclaim_controller.go:197-292 | over all runs, the claim can get its volume iff the Pod has not failed or the claim may lose its node or an annotation meanwhile |
| FailedPods.FailedPodGoesIff | internal/controllers/persistentvolumeclaim_controller.go:104-130 | over all runs, the provisioner Pod can go iff it has not failed, or the claim may lose its node, an annotation, or be deleted |
| FailedPods.StuckForever | internal/utils/pod.go:71-75 | until then the failed Pod stays and no volume is made, in every run |
| DeprovisioningProgress.DoneMeansAbsent | internal/utils/pod.go:71-138 | a whole `ReconcileJob` takes at most four requests and reports done without an error only if one found the Pod absent, after one found it succeeded and the callback was done if the job should run |
| DeprovisioningProgress.ReconcileProgresses | internal/controllers/persistentvolume_controller.go:102-240 | each reconcile of a deleted volume waits for the Pod or lowers a rank |
| DeprovisioningProgress.DeprovisioningEnds | internal/controllers/persistentvolume_controller.go:102-250 | the finalizer is dropped after at most as many rounds as the rank, with the storage freed once |
| DeprovisioningProgress.DeprovisioningEndsIff | internal/controllers/persistentvolume_controller.go:102-250 | when all requests succeed, deprovisioning ends iff the Pod has not failed |
| FailedPods.FailedForever | internal/utils/pod.go:42-47 | in every run a failed deprovisioner Pod stays, the storage is never freed and the volume is held |
| FailedPods.FailedReachable | internal/utils/pod.go:46-47 | a run in which the deprovisioner Pod fails |
| FailedPods.DeprovisioningCanEndIff | internal/controllers/persistentvolume_controller.go:102-250 | over all runs, deprovisioning can end iff no deprovisioner Pod has failed |
| Names.NameFits | internal/utils/strings.go:43-53 | every name fits 63 characters |
| Names.PodNamesDiffer | internal/utils/strings.go:43-53 | up to 41 characters of owner, the name tells owner and role |
| Names.CutNamesDiffer | internal/utils/strings.go:43-53 | names that are cut differ unless the digests collide |
| Names.CutNameKeepsPrefix | internal/utils/strings.go:43-53 | how much of the owner a cut name keeps, and its length |
| Names.ShortNamesAreReadable | internal/utils/strings.go:43-53 | a name that fits is owner, dash and role |
| Names.PodNamesTellTheClaim | internal/controllers/persistentvolumeclaim_controller.go:320-322 | Pods of different claims, and the two Pods of one claim, never share a name |
| PodTemplate.UniqueEnv | internal/utils/podtemplate.go:111-126 | the ordered environment without repetitions, whatever order the map yields |
| PodTemplate.UniqueSpec | internal/utils/podtemplate.go:111-126 | names are ordered and each keeps its last value |
| PodTemplate.SortedIsCanonical | internal/utils/podtemplate.go:116-125 | an ordered environment is determined by what its names mean |
| PodTemplate.MergeInSteps | internal/utils/podtemplate.go:59 | merging in two steps is merging at once |
| PodTemplate.Template.NewProvisionerPod | internal/utils/podtemplate.go:41-73 | the main container is merged in place and then checked, so a failure leaves the template changed; a Pod is returned only if its main container has an image, a command and no arguments, with the annotations' variables on top |
| PodTemplate.MergedLookup | internal/utils/podtemplate.go:59 | an annotation wins over the provisioner's variable of that name, and that over the template's; only variables and command change |
| PodTemplate.Template.FindContainer | internal/utils/podtemplate.go:102-109 | the first container named main |
| PodTemplate.Template.BuildBoth | internal/controllers/persistentvolumeclaim_controller.go:243-257 | after the provisioner Pod was built, the deprovisioner's container is that of the untouched template iff nothing shines through |
| PodTemplate.UntouchedIff | internal/utils/podtemplate.go:53-62 | the exact condition on commands and variables for that |
| PodTemplate.DeprovisionerInheritsCommand | internal/utils/podtemplate.go:53-62 | a deprovisioner container that differs from the one of the untouched template |
| Annotations.AnnotationsToEnv | internal/utils/annotationtoenv.go:10-25 | a variable is defined iff some mapping of its name has a non-empty annotation, with the value of the last such; the names come in the order of the mappings; an error iff an annotation that is not optional is empty |
| Annotations.CopyAnnotations | internal/utils/annotationtoenv.go:27-39 | mapped keys take the source's value, others are kept |
| Annotations.Travel | internal/controllers/persistentvolumeclaim_controller.go:206-271 | both Pods get the variables their annotations define; the deprovisioner sees the annotation values the provisioner saw iff no mapped key is stamped over, and then gets the same variables |
| Registry.HistoryDecides | internal/controllers/storageprovisioner_registry.go:63-99 | a key resolves iff there are valid Puts since its last Delete and all are of one resource, to the latest of them |
| Registry.ProvisionerRegistry.Put | internal/controllers/storageprovisioner_registry.go:63-81 | accepted iff valid and unambiguous; a duplicate disables the key |
| Registry.DuplicateDisables | internal/controllers/storageprovisioner_registry.go:72-79 | a second resource of a key disables it, a second Put of the same resource updates it |
| Registry.ProvisionerRegistry.Get | internal/controllers/storageprovisioner_registry.go:83-91 | a fresh copy of the latest Put, iff the Puts since the last Delete are unambiguous |
| Registry.ProvisionerRegistry.Delete | internal/controllers/storageprovisioner_registry.go:93-99 | the key's history starts anew |
| Registry.ProvisionerRegistry.ForgetMissing | internal/controllers/storageprovisioner_controller.go:71-75 | a key resolves afterwards iff it is not empty and resolved before, and to the same Put |
| Registry.RemovedStillResolves | internal/controllers/storageprovisioner_controller.go:71-75 | every valid provisioner with a key is still resolved after its resource is gone |
| Registry.ProvisionerRegistry.CallerChanges | internal/controllers/storageprovisioner_registry.go:79-88 | no change of an object passed in or handed out changes the registry |

## Left out

- Prune.ImageStore.GetImage: looks an image up by its full id; parsing references, and ids that happen to be names of other images, are not modelled.
- Prune.ImageStore.DeleteImage: the store's layers are taken to stay as long as an image needs them; the internals of containers/storage are not modelled.
- The name arguments and the force and remove-all options of `deleteImages`: `Prune` does not reach them.
- LayerStore.CacheStore.Mount: local images only; pulls, pushes and host mounts are a success or a failure given from outside, and so is the validation of options.
- LayerStore.CacheStore.Unmount: the volume is looked up by its container name; finding it by its directory is not modelled.
- LayerStore.CacheStore.Commit: the id of a new image is new; two commits with one digest are not modelled.
- CacheSync.Linearised: a write that changes nothing gets a new version here, where the API server keeps the old one.
- SyncedStore.SynchronizedStore.Update: one step per call; the interleaving inside a call is the subject of `CacheSync`.
- SyncedStore.SynchronizedStore.Perform: so are its updates; `CacheRuns.LastCallDecides` states the registration result for interleaved calls.
- The controllers of the lifecycle are a state machine over values: the copies that they change in place are values of their stages, so aliasing between them is not captured.
- LifecycleProofs.NoEarlyFree: stale informer caches, two managers at once, and other users who remove the finalizer or the Pods are not modelled.
- `shouldProvision`, the storage class, the registry lookup and the JSON round trip inside the controllers: their verdicts are given from outside, so the safety results hold for all of them.
- `RemoveString`, `AddString`, `HasString` and `Keys`: a list without a string, with one more, membership, and the sorted enabled keys; they would only add easy members.
- Integer overflow of the 64-bit generation and usage counters.
- Registry.ProvisionerRegistry.Put: the validation of a provisioner is an arbitrary predicate.
- Annotations.Travel: mappings without placeholders, as the copy is made after placeholders are substituted.
- The Pod and Cache controllers, templates, manifests, commands, events and logging.
