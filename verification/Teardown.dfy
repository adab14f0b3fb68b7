/** releaseSandbox, shared by delete and by the create rollback, and the two commands that remove directories after it. */
module Teardown {
  import opened Common
  import opened Ublkd
  import opened DeviceRelease

  type Key = string

  /** deviceRecord; a record present means "owned", the flag is process-local. */
  datatype Record = Record(addOutcomeUnknown: bool)

  predicate Uncertain(record: Option<Record>) {
    record.Some? && record.value.addOutcomeUnknown
  }

  /**
   What one private release can do: `listed` and `flying` are the devices and the pending Add of the config
   at the listing, `ids` and `flying'` those afterwards.
   */
  ghost predicate ReleaseEffect(listed: set<DevId>, flying: bool, uncertain: bool, ids: set<DevId>, flying': bool, ok: bool) {
    exists rest ::
      rest <= listed && (ok ==> rest == {} && !(uncertain && listed == {})) && Settles(rest, flying, ids, flying')
  }

  /** Whatever the daemon listed and does, success proves that nothing is attached and no Add can land. */
  ghost predicate ReleaseProvesGone(flying: bool, uncertain: bool) {
    forall listed, ids, flying' ::
      Single(listed, flying) && ReleaseEffect(listed, flying, uncertain, ids, flying', true) ==> ids == {} && !flying'
  }

  /**
   A successful release proves the config empty exactly when no Add was in flight at the listing or the record
   calls it uncertain. A record read from disk never does, so a delete is fooled by exactly those Adds.
   */
  lemma ReleaseProvesGoneIff(flying: bool, uncertain: bool)
    ensures ReleaseProvesGone(flying, uncertain) <==> !flying || uncertain
  {
    if flying && !uncertain {
      var none: set<DevId> := {};
      assert Settles(none, true, none, true) && Single(none, true);
      assert ReleaseEffect(none, true, false, none, true, true);
    }
  }

  /** Where a create is made to fail: one constructor per step that can, in their order. */
  datatype Fault =
    | NoFault | FirstRecord | Acquiring | RecordingLease | Linking | Mounting | RecordingAdd | RecordingDevice
    | Launching | RecordingVmm | Resuming | RecordingResumed

  /** What Lstat and Readlink say about <home>/mnt. */
  datatype Alias = NoAlias | To(key: Key) | Invalid

  /** sandboxState as held in memory by one create or delete. */
  class SandboxState {
    var rootfs: Option<Record>
    var snapfiles: Option<Record>
    var shared: Option<Key>
    var firecracker: bool

    constructor (shared: Option<Key>, rootfs: Option<Record>, snapfiles: Option<Record>)
      ensures this.shared == shared && this.rootfs == rootfs && this.snapfiles == snapfiles
    {
      this.shared, this.rootfs, this.snapfiles, firecracker := shared, rootfs, snapfiles, false;
    }
  }

  /** One sandbox on its node. */
  class Node {
    const ublkd: Daemon
    const rootfsConfig: Config
    const snapfilesConfig: Config
    var home: bool
    var runtime: bool
    var saved: bool                 // state.json exists
    var alias: Alias
    var vmm: bool
    var privateMount: bool
    var sharedMounts: set<Key>

    constructor (ublkd: Daemon, rootfsConfig: Config, snapfilesConfig: Config, sharedMounts: set<Key>)
      ensures this.ublkd == ublkd && this.rootfsConfig == rootfsConfig && this.snapfilesConfig == snapfilesConfig
      ensures !home && !runtime && !saved && alias == NoAlias && !vmm && !privateMount && this.sharedMounts == sharedMounts
    {
      this.ublkd, this.rootfsConfig, this.snapfilesConfig := ublkd, rootfsConfig, snapfilesConfig;
      home, runtime, saved, alias, vmm, privateMount := false, false, false, NoAlias, false, false;
      this.sharedMounts := sharedMounts;
    }

    ghost predicate Gone(c: Config)
      reads this, ublkd
    {
      ublkd.IdsOf(c) == {} && c !in ublkd.inFlight
    }

    /** All there is under the config is what an Add that was in flight, if `flying`, still produces. */
    ghost predicate Left(c: Config, flying: bool)
      reads this, ublkd
    {
      Settles({}, flying, ublkd.IdsOf(c), c in ublkd.inFlight)
    }

    /** The two private configs belong to this sandbox, and each has at most one device or in-flight Add. */
    ghost predicate Valid()
      reads this, ublkd
    {
      && rootfsConfig != snapfilesConfig && {rootfsConfig, snapfilesConfig} <= ublkd.ours
      && Single(ublkd.IdsOf(rootfsConfig), rootfsConfig in ublkd.inFlight)
      && Single(ublkd.IdsOf(snapfilesConfig), snapfilesConfig in ublkd.inFlight)
    }

    /** An Add is in flight that the record does not call uncertain. */
    ghost predicate Loose(c: Config, record: Option<Record>)
      reads ublkd
    {
      c in ublkd.inFlight && !Uncertain(record)
    }

    /** An Add that may still land is one this process knows to be uncertain. */
    ghost predicate Accounted(state: SandboxState)
      reads this, ublkd, state
    {
      !Loose(rootfsConfig, state.rootfs) && !Loose(snapfilesConfig, state.snapfiles)
    }

    /** persist: a home that is gone has nothing to record into; otherwise the write may fail. */
    method Persist(fails: bool := false) returns (ok: bool)
      modifies this`saved
      ensures saved ==> old(saved) || home
      ensures old(saved) ==> saved
      ensures ok && home ==> saved
      ensures ublkd.calm ==> (ok <==> !home || !fails)
    {
      if !home { return true; }
      ok := Try(ublkd.calm, fails);
      if ok { saved := true; }
    }

    /** umount of layout.mountPoint: a shared path directly, or <home>/mnt, which an alias redirects. */
    method Unmount(mountPoint: Option<Key>) returns (ok: bool)
      modifies this`privateMount, this`sharedMounts
      ensures mountPoint.None? && !alias.To? ==> sharedMounts == old(sharedMounts) && (ok ==> !privateMount)
      ensures ok && mountPoint.Some? ==> sharedMounts == old(sharedMounts) - {mountPoint.value}
      ensures ok && mountPoint.None? && alias.To? ==> sharedMounts == old(sharedMounts) - {alias.key}
      ensures privateMount ==> old(privateMount)
      ensures ublkd.calm ==> ok
    {
      ok := Try(ublkd.calm);
      if !ok { return; }
      if mountPoint.Some? {
        sharedMounts := sharedMounts - {mountPoint.value};
      } else if alias.To? {
        sharedMounts := sharedMounts - {alias.key};
      } else {
        privateMount := false;
      }
    }

    /**
     One private device of a teardown: success means nothing of the config is left but what an Add in flight
     at the listing produces, and not even that if the record calls the Add uncertain. With nothing listed it
     succeeds exactly when the record does not, and an Add in flight is then in flight still.
     */
    method ReleasePrivate(listed: map<DevId, Config>, c: Config, record: Option<Record>, ghost flying: bool) returns (ok: bool)
      requires Valid() && c in {rootfsConfig, snapfilesConfig}
      requires Settles(Ids(listed, c), flying, ublkd.IdsOf(c), c in ublkd.inFlight) && Single(Ids(listed, c), flying)
      modifies ublkd
      ensures Valid() && ublkd.OthersSettled({c})
      ensures ReleaseEffect(Ids(listed, c), flying, Uncertain(record), ublkd.IdsOf(c), c in ublkd.inFlight, ok)
      ensures ok ==> Left(c, flying && !Uncertain(record))
      ensures Ids(listed, c) == {} ==>
                (ok <==> !Uncertain(record)) && ublkd.devices == old(ublkd.devices) && ublkd.inFlight == old(ublkd.inFlight)
      ensures c in ublkd.inFlight ==> flying
      ensures ublkd.calm ==> (ok <==> Ids(listed, c) != {} || !Uncertain(record)) && ublkd.inFlight == old(ublkd.inFlight)
    {
      ghost var rest;
      var matches;
      matches, ok, rest := ReleaseOwnedDevices(ublkd, listed, c, flying);
      assert Single(rest, flying);
      SettlesSingle(rest, flying, ublkd.IdsOf(c), c in ublkd.inFlight);
      if ok && record.Some? && record.value.addOutcomeUnknown && matches == 0 {
        ok := false;
      }
    }

    /** The lease this teardown works for: the one in the record, or the one the alias proves. */
    ghost predicate Leased(state: SandboxState)
      reads this, state
    {
      state.shared.Some? || alias.To?
    }

    /** The alias is readable and does not contradict the recorded lease. */
    ghost predicate Consistent(state: SandboxState)
      reads this, state
    {
      !alias.Invalid? && (alias.To? && state.shared.Some? ==> state.shared.value == alias.key)
    }

    /** An uncertain Add of the config shows no device: the one state a calm teardown refuses to call released. */
    ghost predicate Hidden(c: Config, record: Option<Record>)
      reads ublkd
    {
      Uncertain(record) && ublkd.IdsOf(c) == {}
    }

    /** What a calm host lets a teardown do: exactly this decides whether it succeeds. */
    ghost predicate Releasable(state: SandboxState)
      reads this, ublkd, state
    {
      Consistent(state) && !Hidden(rootfsConfig, state.rootfs) && (Leased(state) || !Hidden(snapfilesConfig, state.snapfiles))
    }

    /** Steps up to the stopped VMM and the private unmount. */
    method StopAndUnmount(state: SandboxState, mountPoint: Option<Key>) returns (stopped: bool, ok: bool, unmounted: bool)
      requires mountPoint.Some? ==> state.shared == mountPoint
      modifies this`saved, this`vmm, this`privateMount, this`sharedMounts, state
      ensures sharedMounts == old(sharedMounts) && (old(saved) ==> saved)
      ensures state.rootfs == old(state.rootfs) && state.snapfiles == old(state.snapfiles)
      ensures stopped ==> !vmm && (state.shared.Some? <==> old(Leased(state)))
      ensures ok ==> stopped && unmounted
      ensures stopped && unmounted && !old(Leased(state)) ==> !privateMount
      ensures (privateMount ==> old(privateMount)) && (vmm ==> old(vmm))
      ensures stopped && alias.To? ==> state.shared == Some(alias.key)
      ensures ublkd.calm ==> (ok <==> old(Consistent(state)))
    {
      unmounted := false;
      if alias.Invalid? { return false, false, false; }
      if alias.To? {
        if state.shared.Some? && state.shared.value != alias.key { return false, false, false; }
        state.shared := Some(alias.key);
      }
      ok := Persist();                    // phase deleting
      stopped := Try(ublkd.calm);                       // stopFirecracker
      if !stopped { return false, false, false; }
      vmm, state.firecracker := false, false;
      var again := Persist();
      var unlinked := Try(ublkd.calm);                  // remove the rootfs drive link
      ok := ok && again && unlinked;
      unmounted := true;
      if state.shared.None? {
        unmounted := Unmount(mountPoint);
      }
      ok := ok && unmounted;
    }

    /** The rootfs device and, if asked for, the private snapfiles device, from one listing. */
    method ReleaseListed(state: SandboxState, withSnapfiles: bool, listed: map<DevId, Config>) returns (ok: bool)
      requires Valid() && listed == ublkd.devices
      modifies ublkd, state`rootfs, state`snapfiles
      ensures Valid()
      ensures ok ==> Left(rootfsConfig, old(Loose(rootfsConfig, state.rootfs)))
      ensures ok && withSnapfiles ==> Left(snapfilesConfig, old(Loose(snapfilesConfig, state.snapfiles)))
      ensures (old(Gone(snapfilesConfig)) ==> Gone(snapfilesConfig)) && (old(Gone(rootfsConfig)) ==> Gone(rootfsConfig))
      ensures ublkd.calm ==>
                && ublkd.inFlight == old(ublkd.inFlight)
                && (ok <==> !old(Hidden(rootfsConfig, state.rootfs))
                            && (withSnapfiles ==> !old(Hidden(snapfilesConfig, state.snapfiles))))
    {
      ok := ReleasePrivate(listed, rootfsConfig, state.rootfs, rootfsConfig in old(ublkd.inFlight));
      ghost var ids, flying := ublkd.IdsOf(rootfsConfig), rootfsConfig in ublkd.inFlight;
      if ok { state.rootfs := None; }
      if withSnapfiles {
        var released := ReleasePrivate(listed, snapfilesConfig, state.snapfiles, snapfilesConfig in old(ublkd.inFlight));
        if released { state.snapfiles := None; }
        ok := ok && released;
      }
      assert Settles(ids, flying, ublkd.IdsOf(rootfsConfig), rootfsConfig in ublkd.inFlight);
    }

    /** One List, and what it shows is released. */
    method ReleaseDevices(state: SandboxState, withSnapfiles: bool) returns (ok: bool)
      requires Valid()
      modifies ublkd, state`rootfs, state`snapfiles
      ensures Valid()
      ensures ok ==> Left(rootfsConfig, old(Loose(rootfsConfig, state.rootfs)))
      ensures ok && withSnapfiles ==> Left(snapfilesConfig, old(Loose(snapfilesConfig, state.snapfiles)))
      ensures (old(Gone(snapfilesConfig)) ==> Gone(snapfilesConfig)) && (old(Gone(rootfsConfig)) ==> Gone(rootfsConfig))
      ensures ublkd.calm ==>
                && ublkd.inFlight == old(ublkd.inFlight)
                && (ok <==> !old(Hidden(rootfsConfig, state.rootfs))
                            && (withSnapfiles ==> !old(Hidden(snapfilesConfig, state.snapfiles))))
    {
      ublkd.Drift();
      var listedOk, listed := ublkd.List();
      if !listedOk { return false; }
      ok := ReleaseListed(state, withSnapfiles, listed);
    }

    /**
     releaseSandbox. Success means the VMM is stopped and nothing of the rootfs device is left, nor of the
     private mount and snapfiles device unless the snapfiles are leased, except what an Add that no record
     calls uncertain still produces. A shared filesystem is never unmounted, directly or through the alias,
     and on failure the record survives.
     */
    method ReleaseSandbox(state: SandboxState, mountPoint: Option<Key>) returns (ok: bool)
      requires Valid()
      requires mountPoint.Some? ==> state.shared == mountPoint
      modifies this`saved, this`vmm, this`privateMount, this`sharedMounts, this`alias, ublkd, state
      ensures Valid() && sharedMounts == old(sharedMounts) && (old(saved) ==> saved)
      ensures ok ==> !vmm && Left(rootfsConfig, old(Loose(rootfsConfig, state.rootfs)))
      ensures ok && !old(Leased(state)) ==>
                !privateMount && Left(snapfilesConfig, old(Loose(snapfilesConfig, state.snapfiles)))
      ensures ok && old(Leased(state)) ==> alias == NoAlias && state.shared == None
      ensures (old(Gone(snapfilesConfig)) ==> Gone(snapfilesConfig)) && (old(Gone(rootfsConfig)) ==> Gone(rootfsConfig))
      ensures (privateMount ==> old(privateMount)) && (vmm ==> old(vmm))
      ensures ublkd.calm ==> (ok <==> old(Releasable(state))) && ublkd.inFlight == old(ublkd.inFlight)
    {
      var stopped, unmounted;
      stopped, ok, unmounted := StopAndUnmount(state, mountPoint);
      if !stopped { return false; }
      var released := ReleaseDevices(state, unmounted && state.shared.None?);
      ok := ok && released;
      if ok && state.shared.Some? {
        ok := Try(ublkd.calm);                          // releaseSharedSnapfilesLease removes the alias first
        if ok { alias, state.shared := NoAlias, None; }
      }
      var saved := Persist();
      ok := ok && saved;
    }

    ghost predicate Empty()
      reads this, ublkd
    {
      !vmm && !privateMount && Gone(rootfsConfig) && Gone(snapfilesConfig)
    }

    /** Whatever still runs, is mounted, attached or in flight has its directories and its record. */
    ghost predicate Backed()
      reads this, ublkd
    {
      Empty() || (home && runtime && saved)
    }

    /** Snapfiles are leased or private, never both. */
    ghost predicate Exclusive(state: SandboxState)
      reads this, ublkd, state
    {
      Leased(state) ==> !privateMount && Gone(snapfilesConfig)
    }

    /** removeSandboxDirs: runtime first, then the home with state.json; either removal may fail halfway. */
    method RemoveDirs() returns (ok: bool)
      modifies this`home, this`runtime, this`saved, this`alias
      ensures ok ==> !home && !runtime && !saved && alias == NoAlias
      ensures ublkd.calm ==> ok
    {
      ok := Try(ublkd.calm);
      if !ok { return; }
      runtime := false;
      ok := Try(ublkd.calm);
      if !ok {
        saved := *;
        return;
      }
      home, saved, alias := false, false, NoAlias;
    }

    /** A directory or the record that was there is gone. */
    twostate predicate Removing()
      reads this
    {
      (old(home) && !home) || (old(runtime) && !runtime) || (old(saved) && !saved)
    }

    /**
     The common end of delete and of a failed create. Files go only after everything was released; while
     every Add in flight is one a record calls uncertain, whatever is left is backed.
     */
    method ReleaseAndRemove(state: SandboxState, mountPoint: Option<Key>) returns (removed: bool)
      requires Valid()
      requires mountPoint.Some? ==> state.shared == mountPoint
      modifies this, ublkd, state
      ensures Valid() && sharedMounts == old(sharedMounts)
      ensures removed ==> !home && !runtime && !saved && alias == NoAlias
      ensures removed || Removing() ==> !vmm && Left(rootfsConfig, old(Loose(rootfsConfig, state.rootfs)))
      ensures (removed || Removing()) && !old(Leased(state)) ==>
                !privateMount && Left(snapfilesConfig, old(Loose(snapfilesConfig, state.snapfiles)))
      ensures old(Accounted(state) && Exclusive(state)) ==> (old(Backed()) ==> Backed()) && (removed ==> Empty())
      ensures (privateMount ==> old(privateMount)) && (vmm ==> old(vmm))
      ensures (old(Gone(snapfilesConfig)) ==> Gone(snapfilesConfig)) && (old(Gone(rootfsConfig)) ==> Gone(rootfsConfig))
      ensures ublkd.calm ==> (removed <==> old(Releasable(state))) && ublkd.inFlight == old(ublkd.inFlight)
    {
      removed := ReleaseSandbox(state, mountPoint);
      if removed { removed := RemoveDirs(); }
    }

    /**
     runDelete. It may be run on any leftover, any number of times. If no Add of a dead process is in flight
     when it starts, directories go only when nothing of the sandbox is left. If one is, the record on disk
     does not say so: then directories go only when nothing is left but what that Add still produces. On a calm
     host it removes every sandbox whose alias and record agree, with such an Add in flight before and after.
     */
    method RunDelete(shared: Option<Key>, rootfs: Option<Record>, snapfiles: Option<Record>) returns (removed: bool)
      requires Valid()
      modifies this, ublkd
      ensures Valid() && sharedMounts == old(sharedMounts)
      ensures removed ==> !home && !runtime && !saved && alias == NoAlias
      ensures removed || Removing() ==> !vmm && Left(rootfsConfig, rootfsConfig in old(ublkd.inFlight))
      ensures (removed || Removing()) && shared.None? && !old(alias).To? ==>
                !privateMount && Left(snapfilesConfig, snapfilesConfig in old(ublkd.inFlight))
      ensures {rootfsConfig, snapfilesConfig} !! old(ublkd.inFlight)
              && (shared.Some? || old(alias).To? ==> !old(privateMount) && old(Gone(snapfilesConfig))) ==>
                (old(Backed()) ==> Backed()) && (removed ==> Empty())
      ensures (privateMount ==> old(privateMount)) && (vmm ==> old(vmm))
      ensures (old(Gone(snapfilesConfig)) ==> Gone(snapfilesConfig)) && (old(Gone(rootfsConfig)) ==> Gone(rootfsConfig))
      ensures ublkd.calm && !Uncertain(rootfs) && !Uncertain(snapfiles) ==>
                && ublkd.inFlight == old(ublkd.inFlight)
                && (removed <==> !old(alias).Invalid? && (old(alias).To? && shared.Some? ==> shared.value == old(alias).key))
    {
      var state := new SandboxState(shared, rootfs, snapfiles);
      removed := ReleaseAndRemove(state, None);
    }

    /** attachSandboxDevice: the record is durable before the request, and an uncertain outcome is remembered. */
    method AttachRootfs(state: SandboxState, fault: Fault) returns (ok: bool)
      requires Valid() && home && saved && Gone(rootfsConfig) && Gone(snapfilesConfig)
      modifies this`saved, ublkd`devices, ublkd`inFlight, state`rootfs
      ensures Valid() && saved && Accounted(state) && Gone(snapfilesConfig)
      ensures ok ==> ublkd.IdsOf(rootfsConfig) != {}
      ensures ublkd.calm ==> !Uncertain(state.rootfs) && rootfsConfig !in ublkd.inFlight
      ensures ublkd.calm ==> (ok <==> !fault.RecordingAdd? && !fault.RecordingDevice?)
    {
      state.rootfs := Some(Record(false));
      var recorded := Persist(fault.RecordingAdd?);
      ublkd.Drift();
      if !recorded { return false; }
      label L:
      ghost var newId;
      var reply;
      reply, newId := ublkd.Add(rootfsConfig);
      if ublkd.devices != old@L(ublkd.devices) { AddedLands(old@L(ublkd.devices), newId, rootfsConfig); }
      if !reply.Added? {
        state.rootfs := Some(Record(reply.OutcomeUnknown?));
        return false;
      }
      ok := Persist(fault.RecordingDevice?);
    }

    /** acquireSharedSnapfiles as create sees it: it may stop before the lease, before the alias, or after both. */
    method AcquireShared(state: SandboxState, key: Key, fault: Fault) returns (ok: bool)
      requires home && saved && alias == NoAlias && state.shared == None
      modifies this`saved, this`alias, this`sharedMounts, state`shared
      ensures saved && old(sharedMounts) <= sharedMounts <= old(sharedMounts) + {key}
      ensures alias == NoAlias || alias == To(key)
      ensures alias.To? ==> state.shared == Some(key)
      ensures ok ==> alias == To(key) && state.shared == Some(key) && key in sharedMounts
      ensures ublkd.calm ==> (ok <==> fault !in {Acquiring, RecordingLease, Linking, Mounting})
    {
      ok := Try(ublkd.calm, fault.Acquiring?);
      if !ok { return; }
      state.shared := Some(key);
      ok := Persist(fault.RecordingLease?);
      if !ok { return; }
      ok := Try(ublkd.calm, fault.Linking?);
      if !ok { return; }
      alias := To(key);
      ok := Try(ublkd.calm, fault.Mounting?);
      if ok { sharedMounts := sharedMounts + {key}; }
    }

    /**
     The steps of runCreate after claimSandbox. `crash` ends the process on the spot; otherwise an error
     runs the rollback. Every failure position and every crash leaves the sandbox backed, and directories
     that are gone leave nothing behind. On a calm host the sandbox is created unless `fault` makes a step
     fail, and then nothing of it is left: no VMM, device or pending Add, no directory and no record.
     */
    method RunCreate(key: Key, fault: Fault) returns (created: bool, crashed: bool)
      requires Valid() && Empty() && !home && !runtime && !saved && alias == NoAlias
      modifies this, ublkd
      ensures Valid() && Backed() && old(sharedMounts) <= sharedMounts
      ensures created ==> vmm && home && saved && alias == To(key) && key in sharedMounts && ublkd.IdsOf(rootfsConfig) != {}
      ensures !home ==> Empty()
      ensures !privateMount && Gone(snapfilesConfig)
      ensures ublkd.calm ==> !crashed && (created <==> fault.NoFault?) && rootfsConfig !in ublkd.inFlight
      ensures ublkd.calm && !fault.NoFault? ==> Empty() && !home && !runtime && !saved && alias == NoAlias
    {
      created, crashed := false, false;
      home, runtime := true, true;
      ublkd.Drift();
      var lives := Try(ublkd.calm);
      if !lives { return false, true; }
      var state := new SandboxState(None, None, None);
      var written := Persist(fault.FirstRecord?);
      if !written {
        var removed := RemoveDirs();
        return;
      }
      lives := Try(ublkd.calm);
      if !lives { return false, true; }
      var ok, mountPoint;
      ok, crashed, mountPoint := Populate(state, key, fault);
      if crashed { return; }
      if ok {
        created := true;
      } else {
        var removed := ReleaseAndRemove(state, mountPoint);
      }
    }

    /** The steps that take resources, each of which may fail or be the process's last. */
    method Populate(state: SandboxState, key: Key, fault: Fault) returns (ok: bool, crashed: bool, mountPoint: Option<Key>)
      requires Valid() && Empty() && home && runtime && saved && alias == NoAlias && state.shared == None
      requires state.rootfs == None && state.snapfiles == None
      modifies this`saved, this`alias, this`sharedMounts, this`vmm, ublkd`devices, ublkd`inFlight, state
      ensures Valid() && saved && Accounted(state) && !privateMount && Gone(snapfilesConfig)
      ensures old(sharedMounts) <= sharedMounts && (mountPoint.Some? ==> state.shared == mountPoint)
      ensures ok ==> vmm && alias == To(key) && key in sharedMounts && ublkd.IdsOf(rootfsConfig) != {}
      ensures ublkd.calm ==> !crashed && Releasable(state) && rootfsConfig !in ublkd.inFlight
      ensures ublkd.calm ==> (ok <==> fault.NoFault? || fault.FirstRecord?)
    {
      crashed, mountPoint := true, None;
      ok := AcquireShared(state, key, fault);
      var lives := Try(ublkd.calm);
      if !lives { return false, true, None; }
      if ok {
        mountPoint := state.shared;
        ok := AttachRootfs(state, fault);
      }
      lives := Try(ublkd.calm);
      if !lives { return false, true, mountPoint; }
      if ok { ok := Launch(state, fault); }
      lives := Try(ublkd.calm);
      crashed := !lives;
    }

    /** linkRootfsDrive, launchFirecracker, persist, resume, persist. */
    method Launch(state: SandboxState, fault: Fault) returns (ok: bool)
      requires home && saved
      modifies this`vmm, this`saved, state`firecracker
      ensures saved && (ok ==> vmm)
      ensures ublkd.calm ==> (ok <==> fault !in {Launching, RecordingVmm, Resuming, RecordingResumed})
    {
      ok := Try(ublkd.calm, fault.Launching?);
      if !ok { return; }
      vmm, state.firecracker := true, true;
      ok := Persist(fault.RecordingVmm?);
      if !ok { return; }
      ok := Try(ublkd.calm, fault.Resuming?);
      if ok { ok := Persist(fault.RecordingResumed?); }
    }

    /** What state.json of this sandbox can say: no lease or its own, and never an uncertain Add. */
    static predicate Plain(r: (Option<Key>, Option<Record>, Option<Record>), key: Key) {
      (r.0 == None || r.0 == Some(key)) && !Uncertain(r.1) && !Uncertain(r.2)
    }

    /**
     One sandbox from its create through any number of deletes, each by a process of its own that starts
     from whatever state.json says and may fail or die anywhere. No shared mount is ever lost. As long as no
     delete started while an Add of a dead process was in flight, whatever is left is backed by its
     directories and its record; after one that did (`early`), at most that Add's device outlives them. On a
     calm host the first delete that reads no wrong lease and no uncertain Add leaves nothing, for good.
     */
    method Lifetime(key: Key, fault: Fault, records: seq<(Option<Key>, Option<Record>, Option<Record>)>)
      returns (removed: bool, ghost early: bool)
      requires Valid() && Empty() && !home && !runtime && !saved && alias == NoAlias
      modifies this, ublkd
      ensures Valid() && old(sharedMounts) <= sharedMounts
      ensures !early ==> Backed()
      ensures removed ==> !home && !runtime && !saved && !vmm && !privateMount && Gone(snapfilesConfig)
      ensures removed && !early ==> Empty()
      ensures ublkd.calm && records != [] && (forall r <- records :: Plain(r, key)) ==> removed && !early
    {
      var created, crashed := RunCreate(key, fault);
      removed, early := false, false;
      for i := 0 to |records|
        invariant Valid() && !privateMount && Gone(snapfilesConfig) && old(sharedMounts) <= sharedMounts
        invariant !early ==> Backed()
        invariant removed ==> !home && !runtime && !saved && !vmm && (!early ==> Empty())
        invariant ublkd.calm && (forall r <- records :: Plain(r, key)) ==>
                    !early && rootfsConfig !in ublkd.inFlight && alias in {NoAlias, To(key)} && (i > 0 ==> removed)
      {
        ublkd.Drift();
        early := early || rootfsConfig in ublkd.inFlight;
        assert records[i] in records;
        removed := RunDelete(records[i].0, records[i].1, records[i].2);
      }
    }
  }

  /**
   The forgotten Add, for every sandbox: a create died with the Add of its rootfs in flight, nothing else goes
   wrong, and a delete that reads the record from disk removes all files while the Add can still land.
   */
  method DeleteForgetsAdd(n: Node, record: Option<Record>)
    requires n.Valid() && n.ublkd.calm && n.rootfsConfig in n.ublkd.inFlight && !Uncertain(record)
    requires n.home && n.runtime && n.saved && n.alias == NoAlias && n.Gone(n.snapfilesConfig)
    modifies n, n.ublkd
    ensures !n.home && !n.runtime && !n.saved && n.rootfsConfig in n.ublkd.inFlight && !n.Backed()
  {
    var removed := n.RunDelete(None, record, None);
  }
}
