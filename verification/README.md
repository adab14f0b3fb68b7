# fast-sandbox: verified models of the sandbox host protocols

Dafny models of the parts of fast-sandbox where a wrong order of steps, a lost reply or a wrong
rounding would do damage, and proofs of what those parts are for. `dafny verify dfyconfig.toml`
checks everything.

The centre is the device and lease protocol of `fsb-vm`. A command-line process asks the
overlaybd-ublkd daemon for block devices, mounts them and starts virtual machines on them, while the
daemon recycles device ids, hides in-flight Adds from its listing and may lose replies, and the
process itself may die at any step. One idea runs through it: backing files and shared mounts are
never destroyed while a device, a mount, a VMM or an Add that may still land depends on them.

| file | what it models |
|---|---|
| `SharedSnapfiles`, `SharedSnapfilesSafety`, `SharedSnapfilesReach` | the leased snapfiles cache as a transition system: creates, deletes and prunes over any number of sandboxes and keys, with crashes; its invariant over every run; and what creates, deletes and prunes can achieve from any host |
| `Ublkd`, `DeviceRelease`, `DeviceAttachment` | the daemon with interference from other clients, release by config, the Add fence, ownership of one device |
| `Rollback`, `Build`, `BuildRootfs` | the rollback stack, the build pipeline above it, and the sizing of the build rootfs |
| `Teardown` | create and delete of one sandbox over `releaseSandbox` |
| `PackRecovery`, `LayerSquash` | the checkpoint pack: crash recovery by phase marker, and the layer squash |
| `SparseHash`, `MarkerSearch` | fast forms against simple ones: hashing by hole map, searching a log by chunks |
| `TemplatePair` | publishing, resolving and deleting the rootfs/snapfiles pair in a registry |
| `Overcommit` | derived requests and Fastlet capacity, in exact arithmetic |
| `CredentialMatch`, `CredentialHandoff` | choosing a registry credential and handing it to overlaybd |
| `ShellQuoting`, `GuestEnv` | quoting against the shell's token rules, the env file the guest sources, and what the guest then starts |
| `Common` | an option type, the largest int64, and splitting at a character |

How the source's parts appear. Processes that share locked state are program counters beside the lock
they hold. Objects with fields are classes. I/O, clocks and other clients are nondeterministic choices
(`if *`, `x := *`, `Drift`), so every contract covers every outcome: success, definite failure, a lost
reply, and a stop at that point. What a process must achieve, and not only avoid, is stated for a calm
host, `Daemon.calm`, on which every request and file operation succeeds and nobody else acts.

What is assumed of the daemon, as `cmd/fsb-vm/ublkd.go` relies on it: a reply to an Add is sent only
after the Add has finished; one Add per config runs at a time; a Del or Release whose reply is lost
took effect before the error was seen, or never does; other clients leave our configs alone.

## Where a promise fails, and exactly when it holds

- `deviceAttachment.add` keeps ownership sound if and only if nothing is marked attached
  (`AddSoundIffDetached`). All callers in the source meet this.
- A delete forgets an Add of a dead process, although a later delete is said to retry safely: the
  uncertainty flag is not stored (`cmd/fsb-vm/state.go:48-51`). A successful release proves its config
  empty if and only if no Add was in flight at the listing or the record calls it uncertain
  (`ReleaseProvesGoneIff`). With nothing listed an Add in flight is in flight still after success
  (`ReleasePrivate`), and `DeleteForgetsAdd` is the whole run: all files are gone and the Add can land.
  Without an Add in flight at its start, a delete removes files only when nothing is left (`RunDelete`,
  `Lifetime`).
- `recoverPack` retires a marker whose work directory is gone only in phase `released`, and there always
  on a calm host (`RecoverPack`). A recovery that dies between removing the directory and removing the
  marker in another phase (`CrashedBeforeMarker`) makes every later one fail (`StuckForGood`, and
  `StuckRun` from the first step). Safety is not affected.
- `matchMarker` reports something whenever a non-empty marker is present if and only if each non-empty
  marker after the first empty one contains some marker before it (`EveryMarkerCountsIff`); an empty
  marker hides the rest. The callers pass non-empty constants, so none reaches the failing case.
- A Push over a pair whose deletion stopped after the rootfs can leave halves of two Pushes standing
  together (`PushOverHalfDeletedPair`). Once its rootfs stands, a Push keeps the pair unmixed, whatever
  Pushes led there, if and only if before it the rootfs tag stood, or the snapfiles tag did not, or it was
  already the snapfiles being pushed (`PushKeepsPairIff`, `Push`). A caller can look that up.
- A credential survives the handoff if and only if its user name has no colon (`HandoffRoundTripIff`).
- The quoting round trips hold if and only if no argument or value holds a NUL (`JoinRoundTrip`, `EnvFile`).
- The guest starts the template's arguments if and only if the merged environment does not name
  `ENTRYPOINT`, or names it with a command line that is read as the same arguments, or leaves it empty
  where the bootstrap's default is those arguments (`GuestRunsEntrypointIff`, `EnvFile`): the line of the
  merged variable comes later and wins.

## Model

| member | source | states |
|---|---|---|
| `SharedSnapfilesSafety.RunKeepsInv` | cmd/fsb-vm/shared_snapfiles.go:72-324 | in every run of creates, deletes, prunes, daemon events and crashes, the invariant tying sandbox leases, key records, mounts, devices and in-flight Adds together holds |
| `SharedSnapfilesSafety.StepKeepsInv` | cmd/fsb-vm/shared_snapfiles.go:72-324 | every single action of every process keeps that invariant from any state that has it |
| `SharedSnapfilesSafety.LiveVmmIsBacked` | cmd/fsb-vm/shared_snapfiles.go:72-126 | in every run a live VMM has its leased device attached under the key's config and mounted, and no Add of that key is pending |
| `SharedSnapfilesSafety.OnlyPruneUnmounts` | cmd/fsb-vm/shared_snapfiles.go:273-324 | a shared filesystem is unmounted only by the prune holding the key, and only when no sandbox uses it, although the lease scan is not atomic; teardown never does it through the alias |
| `SharedSnapfilesSafety.RecordAccountsForDaemon` | cmd/fsb-vm/shared_snapfiles.go:94-156 | a device needs a record naming it or an issued Add, a pending Add needs the latter, at most one device per key; without either, nothing is attached, mounted or able to land |
| `SharedSnapfilesSafety.ReleaseHitsOwnConfig` | cmd/fsb-vm/delete.go:194-207 | over every run no Release of any process, of a shared key or of a teardown, detaches a device of another config or another sandbox, whatever ids were recycled |
| `SharedSnapfilesSafety.TearFrame` | cmd/fsb-vm/delete.go:82-156 | tearing down a sandbox changes no key's record, mount or lock, and detaches no device but the sandbox's own |
| `SharedSnapfilesSafety.FailedTeardownKeepsHome` | cmd/fsb-vm/delete.go:82-156 | once any step of a teardown has failed, no run removes the home or its alias before that teardown ends |
| `SharedSnapfilesSafety.RecordGoesLast` | cmd/fsb-vm/delete.go:55-61 | over every run a sandbox's record goes only by its own teardown, after every step of that succeeded and lease, alias and VMM were gone |
| `SharedSnapfilesReach.ReachVmm` | cmd/fsb-vm/shared_snapfiles.go:72-126 | from any host with nothing recorded for the key, some run of a create reaches a live VMM, or a prepared sandbox, on one new device, recorded and mounted, and changes nothing else |
| `SharedSnapfilesReach.ReachVmmByAdoption` | cmd/fsb-vm/shared_snapfiles.go:135-143 | from any host where a listed read-only device fits the record, be it a recorded device or an Add whose reply was lost, a create adopts it and reaches a live VMM; no device comes or goes |
| `SharedSnapfilesReach.ReachWarmVmm` | cmd/fsb-vm/shared_snapfiles.go:135-143 | from any host with the key recorded, mounted and free, a create for a second sandbox reaches a live VMM with the key, every other sandbox and every device unchanged |
| `SharedSnapfilesReach.ReachVmmByFence` | cmd/fsb-vm/shared_snapfiles.go:148-155 | from any host with an issued Add that shows no usable device and is not pending, a create fences it, releases what it left, and a new Add leads to a live VMM |
| `SharedSnapfilesReach.ReachAborted` | cmd/fsb-vm/create.go:143-160 | a create that fails at any step of the acquire can remove its sandbox without a trace, and leaves the key as it was, unlocked |
| `SharedSnapfilesReach.ReachFailed` | cmd/fsb-vm/create.go:143-160 | a create that fails before or after the acquire can remove its sandbox, with the shared disk still recorded and mounted |
| `SharedSnapfilesReach.ReachTornDown` | cmd/fsb-vm/delete.go:82-156 | from any host, the teardown that delete and failed create share can end with the sandbox as if it had never been |
| `SharedSnapfilesReach.ReachRecorded` | cmd/fsb-vm/delete.go:148-156 | before a directory goes, the record on disk holds no lease any more |
| `SharedSnapfilesReach.ReachDeleted` | cmd/fsb-vm/delete.go:33-67 | from any host, the delete of an idle sandbox whose alias and record agree can remove it without a trace, with its own devices and no others, and changes no key |
| `SharedSnapfilesReach.ReachEvicted` | cmd/fsb-vm/shared_snapfiles.go:273-324 | from any host, a prune can evict every free key that has a record, that no sandbox leases and whose Add is not pending: mount, devices and record go, nothing else changes |
| `SharedSnapfilesReach.WholeLife` | cmd/fsb-vm/shared_snapfiles.go:72-324 | on a new host a key is added, serves a VMM, stays warm when its sandbox is deleted, and is evicted, in one run |
| `Ublkd.Daemon.Add` | cmd/fsb-vm/ublkd.go:114-148 | what each reply class of Add and Acquire says about the device that did, did not, or may still appear |
| `Ublkd.Daemon.Release` | cmd/fsb-vm/ublkd.go:150-175 | a successful Del or Release took exactly that id down; a failed one did so or did nothing |
| `DeviceRelease.ReleaseOwnedDevices` | cmd/fsb-vm/delete.go:194-207 | counts the listed devices of the config, and on success leaves at most what an Add in flight at the listing still produces; with none listed it succeeds and nothing changes; other configs are untouched |
| `DeviceRelease.ReleaseOwnedDevicesByConfig` | cmd/fsb-vm/delete.go:182-188 | the same from a fresh listing, and what the match count proves about an Add the listing missed |
| `DeviceRelease.FenceAdd` | cmd/fsb-vm/ublkd.go:239-265 | success proves no Add of the config is pending; nothing is ever detached or attached by fencing; on a calm host it succeeds exactly when it polls and no Add is pending |
| `DeviceAttachment.AddSoundIffDetached` | cmd/fsb-vm/build.go:333-346 | add keeps the fields truthful for every daemon state and reply if and only if the attachment was not marked attached |
| `DeviceAttachment.DeviceAttachment.Add` | cmd/fsb-vm/build.go:333-346 | after any reply the fields still account for the device or the pending Add; success means exactly one device, with this id |
| `DeviceAttachment.DeviceAttachment.Detach` | cmd/fsb-vm/build.go:355-381 | success if and only if no longer attached, and then no device is under the config and no Add can land; no request hit another config; on a calm host only an uncertain Add that shows no device makes it fail |
| `DeviceAttachment.DeviceAttachment.ReleaseKnown` | cmd/fsb-vm/build.go:360-370 | the remembered id still is this config's device, so Del of it hits no other |
| `DeviceAttachment.AnyCalls` | cmd/fsb-vm/build.go:312-381 | over any sequence of add and detach calls the fields account for the daemon, a successful detach leaves nothing attached or able to land, and no request hits another config; on a calm host the last call decides whether a device is attached |
| `Rollback.RollbackStack.Run` | cmd/fsb-vm/create.go:73-87 | exactly a suffix is undone, exactly the remaining prefix is reported, tracked devices stay truthful, and every device taken down belonged to a pushed step; on a calm host the prefix ends at the last step whose undo fails, so everything after it, or everything, is undone |
| `Rollback.RunUndo` | cmd/fsb-vm/create.go:58-87 | one undo releases its own resource or reports an error, and touches no other step's resource; on a calm host it fails exactly when it is made to or when it detaches an uncertain Add that shows no device |
| `Rollback.UndoOne` | cmd/fsb-vm/create.go:73-87 | seen from the whole stack, one undo keeps every other device's account truthful, and on a calm host changes no other step's fate |
| `Build.RunBuild` | cmd/fsb-vm/build.go:485-625 | wherever the build fails, staging and work directories are gone only if no device, pending Add, mount or VMM remains; success publishes and releases everything; every device taken down was under one of its own three configs; on a calm host it fails exactly where a step is made to, and failing or not leaves no device, mount, VMM, staging or unwanted work directory |
| `Build.Build.Stages` | cmd/fsb-vm/build.go:558-602 | every stage failure leaves all resources on the rollback stack above the directories; success leaves none, and on a calm host fails to come exactly when a stage is made to fail |
| `Build.Build.BootFromRootfs` | cmd/fsb-vm/build.go:558-587 | up to the snapshot: on success only the rootfs device is attached, with no mount or VMM left |
| `Build.Build.Rollback` | cmd/fsb-vm/build.go:518-530 | the deferred rollback keeps both directories while anything could not be released; on a calm host it releases everything and removes both, but a work directory to be kept |
| `Build.Build.Attach` | cmd/fsb-vm/build.go:322-346 | the undo is on the stack before the Add is sent, whatever the reply |
| `Build.Build.Probe` | cmd/fsb-vm/overlaybd.go:141-171 | the probe device is on the rollback stack before its Add and detached on success |
| `Build.Build.Prepare` | cmd/fsb-vm/build.go:383-434 | the probe device is gone and only the rootfs device is attached after success |
| `Build.Build.InjectAndBoot` | cmd/fsb-vm/build_firecracker.go:51-215 | no mount or VMM of injection and cold boot outlives the stage on success |
| `Build.Build.Capture` | cmd/fsb-vm/build.go:671-736 | after success the snapfiles disk is unmounted and detached |
| `Build.Build.CaptureAndSeal` | cmd/fsb-vm/build.go:588-602 | after the snapshot: success leaves no device, mount or VMM |
| `Build.Build.DetachLast` | cmd/fsb-vm/build.go:600-602 | detaching the rootfs device leaves nothing of the build attached, mounted or pending |
| `Build.Build.Publish` | cmd/fsb-vm/build.go:615-622 | publication renames staging only when nothing depends on it, and disarms the rollback |
| `BuildRootfs.PrepareBuildRootfs` | cmd/fsb-vm/build.go:383-453 | for every source, filesystem and target size: the filesystem fits its disk throughout unless the image came larger, and then nothing is resized; success is exactly one device with device and filesystem size equal to the target; on a calm host it comes exactly for valid sizes whose filesystem the first upper holds |
| `BuildRootfs.FitFilesystem` | cmd/fsb-vm/build.go:409-423 | repair refuses a filesystem larger than its device and leaves it alone; otherwise, on a calm host, the target size is reached |
| `BuildRootfs.Disk.ResizeUpper` | cmd/fsb-vm/overlaybd.go:213-237 | callable only with nothing attached or pending and with the filesystem inside the new size; a failure leaves the old or the new size |
| `BuildRootfs.Disk.ResizeFilesystem` | cmd/fsb-vm/mount.go:63-72 | never asked beyond the device; the filesystem stays within it even on failure |
| `BuildRootfs.Disk.CheckSizes` | cmd/fsb-vm/build.go:435-451 | the closing checks pass only when both sizes are the target, and on a calm host exactly then |
| `BuildRootfs.DiskSizeBytes` | cmd/fsb-vm/build.go:184-192 | refuses exactly what is not positive or overflows a 64-bit byte count |
| `BuildRootfs.DiskSizeMiB` | cmd/fsb-vm/build.go:194-203 | refuses exactly what is not positive or overflows |
| `BuildRootfs.BytesToGiBCeil` | cmd/fsb-vm/build.go:205-215 | the least number of GiB that holds the size, refused only when the size is not positive |
| `BuildRootfs.GiBRoundTrip` | cmd/fsb-vm/build.go:184-215 | whole GiB survive the conversion to bytes and back |
| `Teardown.Node.Lifetime` | cmd/fsb-vm/delete.go:33-67 | from create through any number of failing or dying deletes no shared mount is lost; whatever is left is backed by its directories and record unless a delete started while an Add was in flight, and then only that Add's device can outlive them; on a calm host any delete that reads its own record leaves nothing |
| `Teardown.Node.RunCreate` | cmd/fsb-vm/create.go:91-252 | every failure position and crash leaves directories and state.json behind unless VMM, mount, devices and pending Adds are all gone; on a calm host the sandbox is created, or the one step made to fail leaves no VMM, device, Add, directory or record |
| `Teardown.Node.Populate` | cmd/fsb-vm/create.go:174-252 | wherever it fails or dies, every pending Add is one the record calls uncertain and state.json stands; success means lease, mount, rootfs device and VMM are there; on a calm host it fails only where made to, and can be released from there |
| `Teardown.Node.RunDelete` | cmd/fsb-vm/delete.go:33-67 | on any leftover: files go only after VMM, mount and devices are gone, except what an Add in flight at the start still produces; without one, only when nothing is left; on a calm host it removes exactly what has a consistent alias, with such an Add in flight before and after |
| `Teardown.DeleteForgetsAdd` | cmd/fsb-vm/state.go:48-51 | for every sandbox whose create died with an Add in flight: a delete on a calm host removes all files while the Add can still land |
| `Teardown.ReleaseProvesGoneIff` | cmd/fsb-vm/delete.go:129-147 | a successful release proves the config empty, whatever was listed, if and only if no Add was in flight at the listing or the record calls it uncertain |
| `Teardown.Node.ReleaseAndRemove` | cmd/fsb-vm/delete.go:55-61 | a directory or the record goes only after the release succeeded; with every Add accounted for, whatever is left is backed |
| `Teardown.Node.ReleaseSandbox` | cmd/fsb-vm/delete.go:82-156 | success means VMM stopped and rootfs device gone, and so the private mount and snapfiles unless leased, except what an Add no record calls uncertain still produces; shared mounts are never touched; on a calm host the alias and the uncertain Adds without a device decide alone |
| `Teardown.Node.StopAndUnmount` | cmd/fsb-vm/delete.go:94-123 | the alias decides the lease before any unmount, so umount never reaches a shared filesystem |
| `Teardown.Node.ReleaseDevices` | cmd/fsb-vm/delete.go:125-147 | from one listing, success leaves of either private config at most what an Add no record calls uncertain still produces |
| `Teardown.Node.ReleaseListed` | cmd/fsb-vm/delete.go:129-147 | both private configs from one listing; on a calm host it fails exactly for an uncertain Add that shows no device |
| `Teardown.Node.ReleasePrivate` | cmd/fsb-vm/delete.go:129-147 | success leaves at most what an Add in flight at the listing produces, and nothing if the record calls it uncertain; with nothing listed it succeeds exactly when the record does not, and such an Add is in flight still |
| `Teardown.Node.RemoveDirs` | cmd/fsb-vm/delete.go:211-219 | success leaves neither directory nor record |
| `Teardown.Node.AttachRootfs` | cmd/fsb-vm/create.go:297-309 | the record is durable before the request, and a pending Add is always one the record calls uncertain |
| `PackRecovery.AnyHistory` | cmd/fsb-vm/pack_cleanup.go:61-129 | over any history of packs and recoveries, each failing or dying anywhere, every mounted, attached or pending resource has its files and a marker whose phase tells the truth |
| `PackRecovery.Bundle.RecoverPack` | cmd/fsb-vm/pack_cleanup.go:61-129 | the work directory goes only after unmount, fence and release; success leaves nothing, failure keeps the marker; a marker with a missing directory is retired only in phase released, and there on a calm host always |
| `PackRecovery.Bundle.ReleaseWork` | cmd/fsb-vm/pack_cleanup.go:104-123 | success means the mount is gone, nothing is attached and a possible Add was fenced |
| `PackRecovery.StuckForGood` | cmd/fsb-vm/pack_cleanup.go:91-100 | with the directory gone in any other phase, no number of recoveries succeeds or changes the marker |
| `PackRecovery.CrashedBeforeMarker` | cmd/fsb-vm/pack_cleanup.go:125-128 | a recovery that dies between the two removals, in any phase it reaches, leaves the marker without its directory |
| `PackRecovery.StuckRun` | cmd/fsb-vm/pack_cleanup.go:91-100 | a whole run from the first marker into the stuck state |
| `PackRecovery.Bundle.Capture` | cmd/fsb-vm/build.go:683-735 | each phase marker precedes the request it announces, so every stop is recoverable; phase prepared means no Add was ever sent |
| `PackRecovery.Bundle.Fill` | cmd/fsb-vm/build.go:698-735 | the attached disk is mounted, filled, unmounted and detached under the attached phase |
| `PackRecovery.Bundle.Rollback` | cmd/fsb-vm/pack.go:84-109 | the deferred rollback keeps the bundle recoverable wherever it stops; on a calm host only an uncertain Add that shows no device keeps it from removing work directory and marker |
| `PackRecovery.Bundle.PackCheckpoint` | cmd/fsb-vm/pack.go:52-127 | a pack that fails or dies anywhere leaves a recoverable bundle; on a calm host with nothing to recover it fails exactly where made to, and leaves neither work directory nor marker either way |
| `LayerSquash.PackRootfs` | cmd/fsb-vm/pack.go:187-222 | every block reads the same through the published chain as through the captured one with the new top; base prefix, bound and obtainability hold; the captured array is unchanged; without a failure the chain has exactly the length the two bounds allow, and no blob of a merged layer is left |
| `LayerSquash.SquashRootfsTail` | cmd/fsb-vm/pack.go:228-257 | for every pattern of failed merges: same meaning, same base, every layer obtainable; without a missed merge the chain stops exactly at the first length below the bound or at its floor; it terminates |
| `LayerSquash.SquashOnce` | cmd/fsb-vm/pack.go:261-312 | one merge replaces the newest layers by one above the base, as many as the squash count, or as all above the base or the bottom layer if those are fewer, or changes no descriptor; without a failure it does so |
| `LayerSquash.MergeTail` | cmd/fsb-vm/pack.go:275-312 | nothing is removed until the merged layer stands; the result can be pushed completely either way, and without a failure no blob of a merged layer stays unless the result names it |
| `LayerSquash.DefaultLength` | cmd/fsb-vm/pack.go:228-257 | with the default bounds a full chain over a template of one layer is published with nine layers |
| `LayerSquash.MergePreservesReads` | cmd/fsb-vm/pack.go:261-312 | replacing a tail by its flattening preserves the read of every block |
| `LayerSquash.ReadStacked` | cmd/fsb-vm/pack.go:261-312 | reading through a stack is reading its flattened tail first, then the rest |
| `LayerSquash.LineageKeepsBaseAndBound` | internal/ocitemplate/upper.go:35-52 | any number of checkpoint generations keep the same base layers, and the length bound up to the squashes missed at the end |
| `LayerSquash.Layout.RemoveSquashedBlobs` | cmd/fsb-vm/pack.go:380-393 | only blobs of the tail go, and none the surviving chain names, even with equal digests; without a failed removal all others of the tail are gone |
| `LayerSquash.Layout.EnsureLocalBlob` | cmd/fsb-vm/pack.go:404-446 | the blob is local on success, and nothing else changes |
| `LayerSquash.FetchTail` | cmd/fsb-vm/pack.go:279-283 | fetching a tail only adds blobs, and on success has every layer of it |
| `SparseHash.SHA256File` | internal/artifacts/checksum.go:21-98 | for every content and sound hole map, with seek errors anywhere, the digest is fed exactly the content; where the seeks tell the holes, a file less than half data is hashed by reading exactly its data, any other by reading it once |
| `SparseHash.KernelIsSound` | internal/artifacts/checksum.go:147-165 | every answer lseek can give for a file whose holes read as zeros, with failures anywhere, is a sound hole map |
| `SparseHash.KernelReports` | internal/artifacts/checksum.go:147-165 | lseek without failures tells the holes |
| `SparseHash.HashExtents` | internal/artifacts/checksum.go:53-97 | the extent walk feeds the content, restarting on a seek failure, terminates, and reads exactly the bytes outside the holes where the seeks tell them |
| `SparseHash.ScanSparse` | internal/artifacts/checksum.go:107-130 | when the scan calls a file sparse, its data count bounds the bytes that are not zero; where the seeks tell the holes it calls exactly those files sparse that are less than half data |
| `SparseHash.FeedZeros` | internal/artifacts/checksum.go:133-145 | exactly the given number of zero bytes is fed, chunk by chunk |
| `MarkerSearch.WaitForAnyMarker` | cmd/sandboxtemplate-builder/snapshot_stage.go:501-542 | for every split of the log into chunks and every failed read, it returns at the first chunk after which the whole log holds a marker, with the marker a whole-log search reports |
| `MarkerSearch.Poll` | cmd/sandboxtemplate-builder/snapshot_stage.go:512-529 | one poll on tail and chunk gives the whole-log answer and the right next tail |
| `MarkerSearch.WindowAgrees` | cmd/sandboxtemplate-builder/snapshot_stage.go:514-520 | searching the window agrees with searching the whole log while nothing was found before |
| `MarkerSearch.WindowSuffices` | cmd/sandboxtemplate-builder/snapshot_stage.go:514-520 | a new occurrence lies in the window, across chunk boundaries too |
| `MarkerSearch.NextTailIsLast` | cmd/sandboxtemplate-builder/snapshot_stage.go:521-528 | the kept tail is always the last bytes of the whole log |
| `MarkerSearch.MatchMarkerIsFirst` | cmd/sandboxtemplate-builder/snapshot_stage.go:545-552 | the reported marker is the first contained one in argument order before any empty marker |
| `MarkerSearch.EveryMarkerCountsIff` | cmd/sandboxtemplate-builder/snapshot_stage.go:545-552 | exactly when no present non-empty marker can be hidden by an empty one |
| `MarkerSearch.Overlap` | cmd/sandboxtemplate-builder/snapshot_stage.go:505-510 | the overlap covers the longest marker |
| `TemplatePair.PushHistory` | internal/ocitemplate/registry.go:150-218 | over any run of interrupted Pushes by writers that do not race, no published tag moves, and a snapfiles tag stands only over the rootfs of its own Push with all blobs present |
| `TemplatePair.MixedHistory` | internal/ocitemplate/pair.go:147-188 | with deletions in between, halves of different Pushes never stand together if every writer looks beforehand whether its Push is safe |
| `TemplatePair.PushKeepsPairIff` | internal/ocitemplate/registry.go:204-218 | a Push whose rootfs stands keeps the pair unmixed, whatever Pushes led to the tags, if and only if a guard on the tags alone held before it |
| `TemplatePair.SafePushKeepsPair` | internal/ocitemplate/registry.go:204-218 | from a safe state a Push that stops anywhere keeps the pair unmixed, and never touches another pair |
| `TemplatePair.UnsafePushMixes` | internal/ocitemplate/pair.go:142-188 | from an unsafe state some history of real Pushes ends in a mixed pair |
| `TemplatePair.PushOverHalfDeletedPair` | internal/ocitemplate/pair.go:142-188 | for every two inputs of one id that differ in both images: published, half deleted, and one step of a Push, ends mixed |
| `TemplatePair.Repository.Push` | internal/ocitemplate/registry.go:150-218 | however it ends no tag moves and no other pair changes; success publishes both images with all blobs, with the given config, layers and other annotations; refusal means bad input or a standing different half; without failing requests it succeeds exactly for acceptable input whose blobs are at hand and no different half stands |
| `TemplatePair.Repository.PushImages` | internal/ocitemplate/registry.go:209-215 | the snapfiles tag is added only over the pushing input's own rootfs |
| `TemplatePair.Repository.PushImage` | internal/ocitemplate/registry.go:277-330 | every blob is present before the manifest is tagged |
| `TemplatePair.Repository.PushManifest` | internal/ocitemplate/pair.go:118-140 | tags are write-once: an identical retry is harmless, a different digest is refused |
| `TemplatePair.Repository.PushBlob` | internal/ocitemplate/registry.go:332-368 | success means the blob is in the repository and came from a local file or a recorded source |
| `TemplatePair.ResolvesToPush` | internal/ocitemplate/pair.go:72-113 | publishing and resolving is a round trip: under its digest, its snapfiles tag and its bare id a Push comes back with both images and its owner |
| `TemplatePair.ResolvesToOnePush` | internal/ocitemplate/registry.go:117-141 | whatever a name of a pair resolves to in an unmixed repository was given to one Push |
| `TemplatePair.ResolvedOwnerIsWhole` | internal/ocitemplate/pair.go:72-91 | whatever resolves has a pair id, that pair's rootfs, and either no owner annotation or a complete one naming this pair |
| `TemplatePair.Repository.DeletePair` | internal/ocitemplate/pair.go:147-188 | refusal touches nothing; whatever other clients tagged, only manifests naming this pair go, the publication point last, never a blob or another pair's tag; an allowed call stays allowed after any partial deletion; without failing requests it deletes exactly what is this pair's and refuses everything else |
| `TemplatePair.DeleteUntilDone` | internal/ocitemplate/pair.go:142-146 | any number of failed deletions followed by one without a failing request deletes the pair and nothing else |
| `TemplatePair.Repository.DeleteAll` | internal/ocitemplate/pair.go:182-187 | deletes in order up to the first failure |
| `TemplatePair.ImagesNameTheirPair` | internal/ocitemplate/registry.go:292-309 | both images carry the pair id; owner annotations are the given ones with nothing inherited; config, layers in their order and every other annotation are kept |
| `TemplatePair.PairsShareNoManifest` | internal/ocitemplate/pair.go:142-146 | pairs of different ids have different manifests even with identical layers |
| `TemplatePair.TagNamesAreDistinct` | internal/ocitemplate/pair.go:31-41 | distinct ids and halves never share a tag name |
| `TemplatePair.ValidPairIdIff` | internal/ocitemplate/pair.go:31-41 | an id is valid exactly when both tags made of it are tags of the OCI distribution specification |
| `Overcommit.DivideRoundUpIsLeast` | api/v1alpha2/resource_profile.go:152-170 | the result is the least integer whose product with the ratio reaches the value; refused exactly for arguments not positive or results beyond int64 |
| `Overcommit.RequestWithinLimit` | api/v1alpha2/resource_profile.go:152-170 | with a ratio of at least one the request lies between 1 and the limit, and exists exactly when an int64 covers the limit |
| `Overcommit.RequestsExist` | api/v1alpha2/resource_profile.go:107-125 | a well-sized limit has requests exactly when int64 requests cover it, as for every int64 limit; they are at least one unit and at most the limit rounded up |
| `Overcommit.RequestsAreLeast` | api/v1alpha2/resource_profile.go:107-125 | derived requests are whole millicores and bytes, and the least that cover the limits at the ratios |
| `Overcommit.ResolvedLimitsHaveRequests` | api/v1alpha2/resource_profile.go:87-105 | the defaults of a valid pool resolve; overrides resolve exactly in ResourceAware pools and if well sized; whatever resolves has requests exactly when they fit int64 |
| `Overcommit.ResourceMode` | api/v1alpha2/resource_profile.go:44-64 | exactly which profiles are legacy and which resource-aware; all others are invalid |
| `Overcommit.ValidProfileIff` | api/v1alpha2/resource_profile.go:174-202 | validation is exactly positive pids, a mode, well-sized limits, ratios of at least one and default requests that fit int64 |
| `Overcommit.DerivedCapacityIsAdmitted` | internal/fastletsettings/settings.go:112-133 | what ResolveFastletCapacity derives from a valid pool passes the Fastlet's own inequalities, and it succeeds exactly for a positive count |
| `Overcommit.BudgetIsLeast` | api/v1alpha2/resource_profile.go:130-150 | the runtime budget is the least that holds both the capacity and one sandbox at its limit |
| `Overcommit.AdmittedFitsParent` | internal/fastletsettings/settings.go:99-135 | settings the Fastlet accepts hold one default sandbox, request and limit, within capacity, budget, envelope and Pod memory |
| `Overcommit.CapacityIsSum` | api/v1alpha2/resource_profile.go:130-150 | the capacity is the sum of the default requests of the advertised number of sandboxes |
| `Overcommit.CapacityHoldsExactlyMax` | api/v1alpha2/resource_profile.go:130-150 | default-sized sandboxes fit the capacity exactly up to the advertised number |
| `Overcommit.LimitWithinRatio` | api/v1alpha2/resource_profile.go:107-125 | each limit is within ratio times its request |
| `Overcommit.OvercommitIsBounded` | api/v1alpha2/resource_profile.go:107-150 | for any list of sandboxes whose requests sum to at most C, the limits sum to at most ratio times C |
| `CredentialMatch.MatchIffServes` | cmd/fsb-vm/oras.go:99-114 | the string tests of credentialFor are exactly the component-wise path prefix test |
| `CredentialMatch.TargetIs` | cmd/fsb-vm/registry.go:60-66 | a key with any scheme and closing slash stands for its host and path, a path of v1 or v2 for the host alone, hosts canonicalized |
| `CredentialMatch.DockerHubLogin` | cmd/fsb-vm/oras.go:88-93 | the key docker login writes for Docker Hub stands for its registry |
| `CredentialMatch.BareHostKey` | cmd/fsb-vm/oras.go:35-42 | a bare host stands for itself, and exactly the four spellings of Docker Hub for its registry |
| `CredentialMatch.PathPrefixIff` | cmd/fsb-vm/oras.go:110-111 | prefix of slash-terminated strings is prefix of path components |
| `CredentialMatch.BestKey` | cmd/fsb-vm/oras.go:94-121 | in any map order, some key that covers most of the image's path, or none when none covers any |
| `CredentialMatch.BestKeyIsLongest` | cmd/fsb-vm/oras.go:94-121 | that key is a longest component-wise match |
| `CredentialHandoff.Handoff` | cmd/fsb-vm/create.go:165-171 | whatever the file held, the entry overlaybd meets first for each image is the one written for it, from a longest-match credential; other entries stay, and with conflicts rejected none changes; without I/O failure it fails only over an unusable entry or a conflict |
| `CredentialHandoff.OwnKeyIsFirst` | cmd/fsb-vm/cred.go:151-165 | longest first, the image's own key precedes every other key that is its host or a path prefix |
| `CredentialHandoff.FileOrder` | cmd/fsb-vm/cred.go:155-165 | the written order lists every key once, longest first, keys of one length alphabetically |
| `CredentialHandoff.OrderIsUnique` | cmd/fsb-vm/cred.go:155-165 | two sorted lists of the same keys are the same list, so the file is a function of its entries |
| `CredentialHandoff.CredentialFile.Merge` | cmd/fsb-vm/cred.go:48-77 | success installs every incoming entry and keeps the others; failure leaves the file alone; without I/O failure it fails exactly on a rejected conflict |
| `CredentialHandoff.OverlaybdCredentials` | cmd/fsb-vm/cred.go:21-40 | one entry per image under its canonical full name, holding the pair or token of a longest serving key and the empty pair where none serves; it fails only over an unusable entry |
| `CredentialHandoff.CredentialFor` | cmd/fsb-vm/oras.go:94-127 | what the entry of a longest serving key stands for, anonymous exactly when none serves, an error only from such a key whose entry is unusable |
| `CredentialHandoff.CredentialOfMeans` | cmd/fsb-vm/oras.go:68-86 | exactly the usable entries are read, each as its explicit pair, its token split at the first colon, or nothing |
| `CredentialHandoff.ChosenIsHandedOver` | cmd/fsb-vm/cred.go:21-40 | what is written for a chosen credential is the token of the entry it was chosen from |
| `CredentialHandoff.HandoffRoundTripIff` | cmd/fsb-vm/oras.go:70-86 | reading the written entry gives the credential back if and only if the user name has no colon |
| `ShellQuoting.ShellJoin` | pkg/sandboxclient/opensandbox.go:51-64 | fails exactly on an empty list; a shell reads the text back as exactly the arguments |
| `ShellQuoting.JoinRoundTrip` | pkg/sandboxclient/opensandbox.go:51-64 | splitting the joined text by sections 2.2 and 2.3 of POSIX.1-2017 XCU gives the arguments back, and fails exactly on a NUL |
| `ShellQuoting.QuoteReadsBack` | cmd/sandboxtemplate-builder/helpers.go:11-13 | a quoted argument adds exactly its characters to the current word, in any context |
| `ShellQuoting.EntrypointCommand` | cmd/sandboxtemplate-builder/convert.go:256-266 | a shell reads the command back as the entrypoint, or the default for an empty one |
| `GuestEnv.EnvFile` | cmd/sandboxtemplate-builder/convert.go:176-205 | sourcing the file leaves exactly the entrypoint, the merged variables and the gate, later lines winning; it fails exactly on a NUL; the guest then starts the template's arguments exactly when the merged variables let it |
| `GuestEnv.GuestRunsEntrypointIff` | cmd/sandboxtemplate-builder/convert.go:381-389 | with and without the bootstrap, the guest starts exactly the template's arguments if and only if the merged ENTRYPOINT is absent or is read as the same arguments |
| `GuestEnv.DefaultReadsBack` | cmd/sandboxtemplate-builder/convert.go:386 | the unquoted default command line is read as the default entrypoint |
| `GuestEnv.LineReadsBack` | cmd/sandboxtemplate-builder/convert.go:189 | one export line is one command assigning exactly the value |
| `GuestEnv.FileReadsBack` | cmd/sandboxtemplate-builder/convert.go:202-203 | the joined lines parse to exactly their commands |
| `GuestEnv.MergeGuestEnvs` | cmd/sandboxtemplate-builder/convert.go:301-316 | refuses exactly an unreadable image environment and entries that are not literal or not validly named; the last template entry of a name wins, else the last usable line of the image |
| `GuestEnv.ReadImageEnvs` | cmd/sandboxtemplate-builder/convert.go:275-296 | a missing file is empty, an unusable line is skipped, the last usable line of a name wins |

## Left out

- Mounting, mkfs, overlaybd tools, HTTP, flock, procfs and process control: each is an abstract step that succeeds, fails or loses its reply.
- SHA-256, base64 and JSON: digests identify contents, base64 and encodings are taken as injective.
- Controllers, the FastPath server and placement: reconcile loops over Kubernetes objects, which nothing here models.
- The janitor, field validation and command wiring: single decisions and tables without state of their own.
- The VMM of a `--prepare-only` sandbox: its lifecycle is outside the commands modelled here.
- The idle bound and time-to-live of the prune loop: which idle keys are evicted, not whether eviction is safe.
- `writable` devices, kernel options and network setup of a sandbox: no step of the lease or teardown protocol depends on them beyond the listing match.
- Log truncation under the marker search, and registry writers that race on one tag: the source does not promise anything there.
- RecoverPack: completion is stated for a calm host only, since fencing may always time out.
- FenceAdd: that it succeeds is stated for a calm host only, for the same reason.
- A corrupt pack marker while resources are held: recovery refuses it, and nothing writes one.
- EnvFile: leaves open the order of the names, which the source fixes alphabetically; the result holds for every order.
- GuestRunsEntrypointIff: a command line that is more than plain and quoted words counts as not read, because the reader refuses expansions, patterns, operators, comments, assignments and reserved words.
- A Quantity beyond int64 millicores or bytes: it is counted exactly here, while the Quantity library, outside this repository, bounds its own counts.
- Media types and size limits of manifests, and the JSON envelope around a resolved pair.
- What the bootstrap script does with its command: it is taken to run it as a shell would.
- Repository names with leading or trailing slashes: reference parsing never yields them.
- CredentialFor: allows any of several equally long matching keys, because map order decides among them in the source.
