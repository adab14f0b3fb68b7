/**
 The shared snapfiles cache of fsb-vm as a transition system.

 Any number of create, delete and prune processes run against one ublkd daemon. Every process
 that touches a sandbox holds that sandbox's lock, and every process that touches a shared key
 holds that key's lock, so a process is represented by the program counter stored beside the
 lock it holds: `Sandbox.op` for create and delete, `KeyLock` for the key. A crash clears the
 counter, which is what closing the flock descriptor does. An action that is not enabled leaves
 the host unchanged, so the states reached by all action sequences are exactly the reachable ones.
 */
module SharedSnapfiles {
  import opened Common

  datatype SandboxId = SandboxId(name: string)
  datatype Key = Key(digest: string)
  type DevId = nat

  /** The config path is a device's ownership identity: a shared key's, a sandbox's own rootfs or snapfiles, or foreign. */
  datatype Config = SharedConfig(key: Key) | PrivateConfig(owner: SandboxId, rootfs: bool) | OtherConfig(path: string)
  datatype Device = Device(config: Config, writable: bool)

  /** state.json of a shared key: absent, no device, an Add whose reply was never recorded, or a device. */
  datatype Record = NoRecord | NoDevice | AddIssued | Attached(id: DevId)

  /** state.json of a sandbox, as far as leases are concerned. */
  datatype StateFile = Missing | Unreadable | Lease(key: Option<Key>)

  datatype AcquireStep =
    | Locked | Leased | Aliased | Listed(found: Option<DevId>) | Fencing | Fenced
    | Releasing(todo: set<DevId>, failed: bool) | Cleared | Recorded | Adding | Have(id: DevId) | Mounted

  datatype TearStep = Begin | Marked | Saved | Stopped | Noted | Unmounted | Freeing(todo: set<DevId>) | Released | Dropped | Removing

  /** What the process holding the sandbox lock is doing; `lease` is the SharedSnapfiles field in its memory. */
  datatype Op =
    | Idle
    | Claimed(want: Key)
    | Creating(want: Key)
    | Acquiring(key: Key, step: AcquireStep)
    | Ready(key: Key)
    | Launched(key: Key)
    | Tearing(lease: Option<Key>, mountPoint: Option<Key>, failed: bool, at: TearStep)

  datatype Sandbox = Sandbox(home: bool, file: StateFile, alias: Option<Key>, vmm: Option<Key>, op: Op)

  datatype PruneStep =
    | PLocked | Scan(todo: set<SandboxId>) | Probe(todo: set<SandboxId>, at: SandboxId) | Scanned | PUnmounted
    | PFenced | PReleasing(ids: set<DevId>, failed: bool) | Emptied

  datatype KeyLock = Free | ByCreate(owner: SandboxId) | ByPrune(step: PruneStep)

  datatype Shared = Shared(record: Record, mount: Option<DevId>, lock: KeyLock)

  datatype Host = Host(
    sandboxes: map<SandboxId, Sandbox>,
    keys: map<Key, Shared>,
    devices: map<DevId, Device>,
    inFlight: set<Key>)

  const NEW_SANDBOX := Sandbox(false, Missing, None, None, Idle)
  const NEW_SHARED := Shared(NoRecord, None, Free)
  const EMPTY_HOST := Host(map[], map[], map[], {})

  function Sb(h: Host, s: SandboxId): Sandbox {
    if s in h.sandboxes then h.sandboxes[s] else NEW_SANDBOX
  }

  function Sh(h: Host, k: Key): Shared {
    if k in h.keys then h.keys[k] else NEW_SHARED
  }

  function SetSb(h: Host, s: SandboxId, x: Sandbox): Host {
    h.(sandboxes := h.sandboxes[s := x])
  }

  function SetSh(h: Host, k: Key, y: Shared): Host {
    h.(keys := h.keys[k := y])
  }

  function SetOp(h: Host, s: SandboxId, op: Op): Host {
    SetSb(h, s, Sb(h, s).(op := op))
  }

  function SetLock(h: Host, k: Key, lock: KeyLock): Host {
    SetSh(h, k, Sh(h, k).(lock := lock))
  }

  predicate Has(h: Host, id: DevId, k: Key) {
    id in h.devices && h.devices[id].config == SharedConfig(k)
  }

  /** What List shows under the key's config. */
  function ListIds(h: Host, k: Key): set<DevId> {
    set id | id in h.devices && h.devices[id].config == SharedConfig(k)
  }

  /** A device of one of the sandbox's own two configs. */
  predicate Owns(h: Host, id: DevId, s: SandboxId) {
    id in h.devices && h.devices[id].config.PrivateConfig? && h.devices[id].config.owner == s
  }

  /** What List shows under the sandbox's own rootfs config and, if asked for, its snapfiles config. */
  function PrivateIds(h: Host, s: SandboxId, snapfiles: bool): set<DevId> {
    set id | id in h.devices && Owns(h, id, s) && (h.devices[id].config.rootfs || snapfiles)
  }

  /** listSandboxIDs: every sandbox whose home exists. */
  function SandboxIds(h: Host): set<SandboxId> {
    set s | s in h.sandboxes && h.sandboxes[s].home
  }

  /** One daemon request can succeed, or fail having taken effect, or fail without effect. */
  datatype Outcome = Ok | LostReply | Refused

  function ReleaseDevice(h: Host, id: DevId, r: Outcome): Host {
    if r.Refused? then h else h.(devices := h.devices - {id})
  }

  // ---------------------------------------------------------------- create

  datatype CreateAct =
    | Claim(key: Key)            // mkdir of a home that does not exist
    | WriteCreating(ok: bool)    // first state.json; on failure the directories are removed
    | LockKey                    // lockSharedSnapfiles, blocking
    | Persist                    // any later writeState of create
    | Launch
    | Finish
    | PrepareOnly
    | Fail                       // any error return: releaseSandbox runs

  function StepCreate(h: Host, s: SandboxId, a: CreateAct): Host {
    var x := Sb(h, s);
    match a
    case Claim(k) =>
      if x.op.Idle? && !x.home then SetSb(h, s, x.(home := true, op := Claimed(k))) else h
    case WriteCreating(ok) =>
      if !x.op.Claimed? then h
      else if ok then SetSb(h, s, x.(file := Lease(None), op := Creating(x.op.want)))
      else SetSb(h, s, x.(home := false, file := Missing, op := Idle))
    case LockKey =>
      if x.op.Creating? && Sh(h, x.op.want).lock.Free?
      then SetLock(SetOp(h, s, Acquiring(x.op.want, Locked)), x.op.want, ByCreate(s)) else h
    case Persist =>
      if x.op.Ready? || x.op.Launched? then SetSb(h, s, x.(file := Lease(Some(x.op.key)))) else h
    case Launch =>
      if x.op.Ready? then SetSb(h, s, x.(vmm := Some(x.op.key), op := Launched(x.op.key))) else h
    case Finish =>
      if x.op.Launched? then SetOp(h, s, Idle) else h
    case PrepareOnly =>
      if x.op.Ready? then SetOp(h, s, Idle) else h
    case Fail =>
      // After acquireSharedSnapfiles returned, layout.mountPoint is the shared mount point.
      if x.op.Creating? then SetOp(h, s, Tearing(None, None, false, Begin))
      else if x.op.Ready? || x.op.Launched? then SetOp(h, s, Tearing(Some(x.op.key), Some(x.op.key), false, Begin))
      else h
  }

  // ---------------------------------------------------------------- acquireSharedSnapfiles

  datatype AcquireAct =
    | InstallLease | LinkAlias | ReadRecord | ListDevices(first: Option<DevId>) | Adopt | Fence | ListOwned
    | ReleaseOne(id: DevId, outcome: Outcome) | ClearRecord | RecordAdd | SendAdd | AddReply(id: DevId) | MountDevice | Unlock
    | Abort(leaseSet: bool)   // any error return, with or without state.SharedSnapfiles already set

  /** recoverSharedSnapfilesDevice's match: this config, the recorded path if one is recorded, read-only. */
  predicate Matches(h: Host, k: Key, id: DevId) {
    Has(h, id, k) && !h.devices[id].writable && (Sh(h, k).record.Attached? ==> Sh(h, k).record.id == id)
  }

  function At(h: Host, s: SandboxId, k: Key, step: AcquireStep): Host {
    SetOp(h, s, Acquiring(k, step))
  }

  function StepAcquire(h: Host, s: SandboxId, a: AcquireAct): Host {
    var x := Sb(h, s);
    if !x.op.Acquiring? then h else
    var k, step := x.op.key, x.op.step;
    var y := Sh(h, k);
    match a
    case InstallLease =>
      if step.Locked? then SetSb(h, s, x.(file := Lease(Some(k)), op := Acquiring(k, Leased))) else h
    case LinkAlias =>
      if step.Leased? then SetSb(h, s, x.(alias := Some(k), op := Acquiring(k, Aliased))) else h
    case ReadRecord =>
      if step.Aliased? && (y.record.NoRecord? || y.record.NoDevice?) then At(h, s, k, Cleared) else h
    case ListDevices(first) =>
      if step.Aliased? && (y.record.AddIssued? || y.record.Attached?) then
        // The loop stops at the first listed match; List has no fixed order, so any match can be it.
        if first.Some? && Matches(h, k, first.value) then At(h, s, k, Listed(first))
        else if first.None? && forall id <- h.devices :: !Matches(h, k, id) then At(h, s, k, Listed(None))
        else h
      else h
    case Adopt =>
      if step.Listed? && step.found.Some? && y.record.AddIssued? then
        SetSh(At(h, s, k, Have(step.found.value)), k, y.(record := Attached(step.found.value)))
      else if step.Listed? && step.found.Some? && y.record.Attached? then At(h, s, k, Have(y.record.id))
      else if step.Listed? && step.found.None? && y.record.AddIssued? then At(h, s, k, Fencing)
      else h
    case Fence =>
      if step.Fencing? && k !in h.inFlight then At(h, s, k, Fenced) else h
    case ListOwned =>
      if step.Fenced? then At(h, s, k, Releasing(ListIds(h, k), false)) else h
    case ReleaseOne(id, r) =>
      if step.Releasing? && id in step.todo then
        At(ReleaseDevice(h, id, r), s, k, Releasing(step.todo - {id}, step.failed || !r.Ok?))
      else h
    case ClearRecord =>
      if step.Releasing? && step.todo == {} && !step.failed then
        SetSh(At(h, s, k, Cleared), k, y.(record := NoDevice))
      else h
    case RecordAdd =>
      if step.Cleared? then SetSh(At(h, s, k, Recorded), k, y.(record := AddIssued)) else h
    case SendAdd =>
      if step.Recorded? then At(h, s, k, Adding).(inFlight := h.inFlight + {k}) else h
    case AddReply(id) =>
      // The reply is sent only after the add has finished.
      if step.Adding? && k !in h.inFlight && Has(h, id, k) then
        SetSh(At(h, s, k, Have(id)), k, y.(record := Attached(id)))
      else h
    case MountDevice =>
      if step.Have? then
        SetSh(At(h, s, k, Mounted), k, if y.mount.None? then y.(mount := Some(step.id)) else y)
      else h
    case Unlock =>
      if step.Mounted? then SetLock(SetOp(h, s, Ready(k)), k, Free) else h
    case Abort(leaseSet) =>
      SetLock(SetOp(h, s, Tearing(if leaseSet || !step.Locked? then Some(k) else None, None, false, Begin)), k, Free)
  }

  // ---------------------------------------------------------------- releaseSandbox and removeSandboxDirs

  datatype TearAct =
    | StartDelete
    | ReadAlias | Save(ok: bool) | StopVmm(ok: bool) | UnmountOwn(ok: bool)
    | ListPrivate(ok: bool, unmounted: bool) | ReleaseOwn(id: DevId, outcome: Outcome)
    | EndPrivate(ok: bool)   // not ok: an uncertain Add that the List did not show
    | DropLease(ok: bool) | SaveFinal(ok: bool) | RemoveFile | RemoveHome | Stop

  /** The key whose filesystem umount(layout.mountPoint) would detach: directly, or through the alias. */
  function UnmountTarget(x: Sandbox): Option<Key>
    requires x.op.Tearing?
  {
    if x.op.mountPoint.Some? then x.op.mountPoint else x.alias
  }

  function StepTear(h: Host, s: SandboxId, a: TearAct): Host {
    var x := Sb(h, s);
    if a.StartDelete? then
      // An absent or unreadable state.json is replaced by an empty record.
      if x.op.Idle? then SetOp(h, s, Tearing(if x.file.Lease? then x.file.key else None, None, false, Begin)) else h
    else if !x.op.Tearing? then h else
    var op := x.op;
    match a
    case StartDelete => h
    case ReadAlias =>
      if !op.at.Begin? then h
      else if x.alias.Some? && op.lease.Some? && op.lease != x.alias then SetOp(h, s, Idle)
      else SetOp(h, s, op.(lease := if x.alias.Some? then x.alias else op.lease, at := Marked))
    case Save(ok) =>
      // Once before the VMM is stopped and once after it.
      if !op.at.Marked? && !op.at.Stopped? then h
      else
        var next := if op.at.Marked? then Saved else Noted;
        if !x.home then SetOp(h, s, op.(at := next))
        else if ok then SetSb(h, s, x.(file := Lease(op.lease), op := op.(at := next)))
        else SetOp(h, s, op.(failed := true, at := next))
    case StopVmm(ok) =>
      if !op.at.Saved? then h
      else if ok then SetSb(h, s, x.(vmm := None, op := op.(at := Stopped)))
      else SetOp(h, s, Idle)
    case UnmountOwn(ok) =>
      if !op.at.Noted? then h
      else if op.lease.Some? then SetOp(h, s, op.(at := Unmounted))
      else if !ok then SetOp(h, s, op.(failed := true, at := Unmounted))
      else
        var h' := SetOp(h, s, op.(at := Unmounted));
        var target := UnmountTarget(x);
        if target.Some? then SetSh(h', target.value, Sh(h', target.value).(mount := None)) else h'
    case ListPrivate(ok, unmounted) =>
      if !op.at.Unmounted? then h
      else if !ok then SetOp(h, s, Idle)
      else SetOp(h, s, op.(at := Freeing(PrivateIds(h, s, unmounted && op.lease.None?))))
    case ReleaseOwn(id, r) =>
      if op.at.Freeing? && id in op.at.todo then
        SetOp(ReleaseDevice(h, id, r), s, op.(failed := op.failed || !r.Ok?, at := Freeing(op.at.todo - {id})))
      else h
    case EndPrivate(ok) =>
      if op.at.Freeing? && op.at.todo == {} then SetOp(h, s, op.(failed := op.failed || !ok, at := Released)) else h
    case DropLease(ok) =>
      if !op.at.Released? then h
      else if op.failed || op.lease.None? then SetOp(h, s, op.(at := Dropped))
      else if ok then SetSb(h, s, x.(alias := None, op := op.(lease := None, at := Dropped)))
      else SetOp(h, s, op.(failed := true, at := Dropped))
    case SaveFinal(ok) =>
      if !op.at.Dropped? then h
      else if op.failed || (x.home && !ok) then SetOp(h, s, Idle)
      else if x.home then SetSb(h, s, x.(file := Lease(op.lease), op := op.(at := Removing)))
      else SetOp(h, s, op.(at := Removing))
    case RemoveFile =>
      if op.at.Removing? then SetSb(h, s, x.(file := Missing)) else h
    case RemoveHome =>
      if op.at.Removing? then SetSb(h, s, x.(home := false, file := Missing, alias := None, op := Idle)) else h
    case Stop =>
      SetOp(h, s, Idle)
  }

  // ---------------------------------------------------------------- pruneSharedSnapfilesEntry

  datatype PruneAct =
    | PruneLock | ListHomes | ReadState(s: SandboxId) | ReadLink | EndScan | Unmount | FenceOld | ListOld
    | ReleaseOld(id: DevId, outcome: Outcome) | EndRelease | RemoveKey(ok: bool) | GiveUp

  function StepPrune(h: Host, k: Key, a: PruneAct): Host {
    var y := Sh(h, k);
    if a.PruneLock? then (if y.lock.Free? then SetLock(h, k, ByPrune(PLocked)) else h)
    else if !y.lock.ByPrune? then h else
    var step := y.lock.step;
    match a
    case PruneLock => h
    case ListHomes =>
      if step.PLocked? then SetLock(h, k, ByPrune(Scan(SandboxIds(h)))) else h
    case ReadState(s) =>
      // One readState per listed sandbox, with any number of steps of other processes in between.
      if !step.Scan? || s !in step.todo then h
      else if Sb(h, s).file.Unreadable? then SetLock(h, k, Free)
      else if Sb(h, s).file.Missing? then SetLock(h, k, ByPrune(Probe(step.todo, s)))
      else if Sb(h, s).file.key == Some(k) then SetLock(h, k, Free)
      else SetLock(h, k, ByPrune(Scan(step.todo - {s})))
    case ReadLink =>
      if !step.Probe? then h
      else if Sb(h, step.at).alias == Some(k) then SetLock(h, k, Free)
      else SetLock(h, k, ByPrune(Scan(step.todo - {step.at})))
    case EndScan =>
      if step.Scan? && step.todo == {} then SetLock(h, k, ByPrune(Scanned)) else h
    case Unmount =>
      if step.Scanned? && !y.record.NoRecord? then SetSh(h, k, y.(mount := None, lock := ByPrune(PUnmounted))) else h
    case FenceOld =>
      if !step.PUnmounted? then h
      else if y.record.NoRecord? || y.record.NoDevice? then SetLock(h, k, ByPrune(Emptied))
      else if y.record.Attached? || k !in h.inFlight then SetLock(h, k, ByPrune(PFenced))
      else h
    case ListOld =>
      if step.PFenced? then SetLock(h, k, ByPrune(PReleasing(ListIds(h, k), false))) else h
    case ReleaseOld(id, r) =>
      if step.PReleasing? && id in step.ids then
        SetLock(ReleaseDevice(h, id, r), k, ByPrune(PReleasing(step.ids - {id}, step.failed || !r.Ok?)))
      else h
    case EndRelease =>
      if step.PReleasing? && step.ids == {} then SetLock(h, k, if step.failed then Free else ByPrune(Emptied)) else h
    case RemoveKey(ok) =>
      if step.Emptied? then SetSh(h, k, Shared(if ok then NoRecord else y.record, y.mount, Free)) else h
    case GiveUp =>
      SetLock(h, k, Free)
  }

  // ---------------------------------------------------------------- daemon, kernel and crashes

  datatype EnvAct =
    | AddLands(key: Key, id: DevId, writable: bool)
    | AddFails(key: Key)
    | PrivateLands(owner: SandboxId, rootfs: bool, id: DevId, writable: bool)
    | OtherAdd(id: DevId, path: string, writable: bool)
    | OtherDel(id: DevId)
    | VmmExits(s: SandboxId)
    | LoseState(s: SandboxId, unreadable: bool)
    | CrashSandbox(s: SandboxId)
    | CrashPrune(key: Key)

  function StepEnv(h: Host, a: EnvAct): Host {
    match a
    case AddLands(k, id, w) =>
      if k in h.inFlight && id !in h.devices then
        h.(devices := h.devices[id := Device(SharedConfig(k), w)], inFlight := h.inFlight - {k})
      else h
    case AddFails(k) => h.(inFlight := h.inFlight - {k})
    case PrivateLands(owner, rootfs, id, w) =>
      // An Add of a create, at any time: nothing here depends on when a private device appears.
      if id in h.devices then h else h.(devices := h.devices[id := Device(PrivateConfig(owner, rootfs), w)])
    case OtherAdd(id, path, w) =>
      if id in h.devices then h else h.(devices := h.devices[id := Device(OtherConfig(path), w)])
    case OtherDel(id) =>
      if id in h.devices && h.devices[id].config.OtherConfig? then h.(devices := h.devices - {id}) else h
    case VmmExits(s) => SetSb(h, s, Sb(h, s).(vmm := None))
    case LoseState(s, unreadable) =>
      if Sb(h, s).home then SetSb(h, s, Sb(h, s).(file := if unreadable then Unreadable else Missing)) else h
    case CrashSandbox(s) =>
      var op := Sb(h, s).op;
      if op.Acquiring? then SetLock(SetOp(h, s, Idle), op.key, Free) else SetOp(h, s, Idle)
    case CrashPrune(k) =>
      if Sh(h, k).lock.ByPrune? then SetLock(h, k, Free) else h
  }

  datatype Action =
    | Create(s: SandboxId, create: CreateAct)
    | Acquire(s: SandboxId, acquire: AcquireAct)
    | Tear(s: SandboxId, tear: TearAct)
    | Prune(key: Key, prune: PruneAct)
    | Env(env: EnvAct)

  function Step(h: Host, a: Action): Host {
    match a
    case Create(s, c) => StepCreate(h, s, c)
    case Acquire(s, c) => StepAcquire(h, s, c)
    case Tear(s, c) => StepTear(h, s, c)
    case Prune(k, c) => StepPrune(h, k, c)
    case Env(c) => StepEnv(h, c)
  }

  function Run(h: Host, actions: seq<Action>): Host {
    if actions == [] then h else Step(Run(h, actions[..|actions| - 1]), actions[|actions| - 1])
  }
}
