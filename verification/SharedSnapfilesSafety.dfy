/**
 Safety of the shared snapfiles cache over every run: the invariant, its preservation by every
 action, and the consequences for live VMMs, for devices and for in-flight Adds.
 */
module SharedSnapfilesSafety {
  import opened Common
  import opened SharedSnapfiles

  // ---------------------------------------------------------------- invariant

  /** The sandbox depends on the key's filesystem now, or its create is past acquireSharedSnapfiles. */
  ghost predicate Uses(x: Sandbox, k: Key) {
    x.vmm == Some(k) || x.op == Ready(k) || x.op == Launched(k)
  }

  ghost predicate FileProtects(x: Sandbox, k: Key) {
    x.home && (x.file == Lease(Some(k)) || x.file.Missing? || x.file.Unreadable?)
  }

  /** What an eviction scan finds when it looks at the sandbox: a lease, an alias, or an error. */
  ghost predicate Refers(x: Sandbox, k: Key) {
    x.alias == Some(k) && FileProtects(x, k)
  }

  ghost predicate AcquireOk(x: Sandbox, k: Key, step: AcquireStep) {
    && x.vmm == None
    && x.home
    && (step.Locked? ==> x.alias == None)
    && (step.Leased? ==> x.alias == None && FileProtects(x, k))
    && (!step.Locked? && !step.Leased? ==> Refers(x, k))
  }

  ghost predicate TearOk(x: Sandbox, lease: Option<Key>, mountPoint: Option<Key>, at: TearStep) {
    && (mountPoint.Some? && !at.Dropped? && !at.Removing? ==> lease == mountPoint)
    && (!at.Begin? && !at.Dropped? && !at.Removing? && x.alias.Some? ==> lease == x.alias)
    && (!at.Begin? && !at.Marked? && !at.Saved? ==> x.vmm == None)
  }

  ghost predicate SandboxOk(h: Host, s: SandboxId) {
    var x := Sb(h, s);
    && (x.vmm.Some? ==> Refers(x, x.vmm.value))
    && (x.op.Ready? || x.op.Launched? ==> Refers(x, x.op.key))
    && (!x.home ==> x.alias == None && x.file.Missing?)
    && match x.op
       case Idle => true
       case Claimed(_) => x.vmm == None && x.home && x.alias == None
       case Creating(_) => x.vmm == None && x.home && x.alias == None
       case Acquiring(k, step) => AcquireOk(x, k, step) && Sh(h, k).lock == ByCreate(s)
       case Ready(_) => x.vmm == None
       case Launched(k) => x.vmm == None || x.vmm == Some(k)
       case Tearing(lease, mountPoint, _, at) => TearOk(x, lease, mountPoint, at)
  }

  ghost predicate NoneAttached(h: Host, k: Key) {
    forall id <- h.devices :: !Has(h, id, k)
  }

  /** Every device of the key is still to be released, unless a release already failed. */
  ghost predicate Covered(h: Host, k: Key, todo: set<DevId>, failed: bool) {
    && k !in h.inFlight
    && (forall id <- todo :: Has(h, id, k))
    && (!failed ==> forall id <- h.devices :: Has(h, id, k) ==> id in todo)
  }

  ghost predicate AcquirerOk(h: Host, k: Key, y: Shared, step: AcquireStep) {
    match step
    case Listed(found) =>
      && (y.record.AddIssued? || y.record.Attached?)
      && (found.Some? ==> Has(h, found.value, k))
    case Fencing => y.record.AddIssued?
    case Fenced => y.record.AddIssued? && k !in h.inFlight
    case Releasing(todo, failed) => y.record.AddIssued? && Covered(h, k, todo, failed)
    case Cleared => y.record.NoRecord? || y.record.NoDevice?
    case Recorded => y.record.AddIssued? && k !in h.inFlight && NoneAttached(h, k)
    case Adding => y.record.AddIssued?
    case Have(id) => y.record == Attached(id) && Has(h, id, k)
    case Mounted => y.mount.Some?
    case _ => true
  }

  ghost predicate PrunerOk(h: Host, k: Key, y: Shared, step: PruneStep) {
    match step
    case PUnmounted => y.mount == None
    case PFenced => y.mount == None && k !in h.inFlight
    case PReleasing(ids, failed) => y.mount == None && Covered(h, k, ids, failed)
    case Emptied => y.mount == None && k !in h.inFlight && NoneAttached(h, k)
    case _ => true
  }

  /** The durable record of a key accounts for every device, mount and in-flight Add of its config. */
  ghost predicate Accounted(h: Host, k: Key, y: Shared) {
    && (forall id <- h.devices, id' <- h.devices :: Has(h, id, k) && Has(h, id', k) ==> id == id')
    && (forall id <- h.devices :: Has(h, id, k) ==> y.record.AddIssued? || y.record == Attached(id))
    && (k in h.inFlight ==> y.record.AddIssued? && NoneAttached(h, k))
    && (y.mount.Some? ==> y.record == Attached(y.mount.value) && Has(h, y.mount.value, k))
  }

  ghost predicate KeyOk(h: Host, k: Key) {
    var y := Sh(h, k);
    && Accounted(h, k, y)
    && match y.lock
       case Free => true
       case ByCreate(s) => Sb(h, s).op.Acquiring? && Sb(h, s).op.key == k && AcquirerOk(h, k, y, Sb(h, s).op.step)
       case ByPrune(step) => PrunerOk(h, k, y, step)
  }

  /** A prune has not yet looked at the sandbox. */
  ghost predicate StillToScan(step: PruneStep, s: SandboxId) {
    step.PLocked? || (step.Scan? && s in step.todo) || (step.Probe? && s in step.todo)
  }

  ghost predicate UseOk(h: Host, s: SandboxId, k: Key) {
    Uses(Sb(h, s), k) ==>
      && Sh(h, k).mount.Some?
      && (Sh(h, k).lock.ByPrune? ==> StillToScan(Sh(h, k).lock.step, s))
  }

  /** What a teardown still has to release is attached under the sandbox's own configs. */
  ghost predicate TodoOk(h: Host, s: SandboxId) {
    var op := Sb(h, s).op;
    op.Tearing? && op.at.Freeing? ==> forall id <- op.at.todo :: Owns(h, id, s)
  }

  ghost predicate AllTodos(h: Host) { forall s :: TodoOk(h, s) }
  ghost predicate AllSandboxes(h: Host) { forall s :: SandboxOk(h, s) }
  ghost predicate AllKeys(h: Host) { forall k :: KeyOk(h, k) }
  ghost predicate AllUses(h: Host) { forall s, k :: UseOk(h, s, k) }

  ghost predicate Inv(h: Host) { AllSandboxes(h) && AllKeys(h) && AllUses(h) && AllTodos(h) }

  lemma Know(h: Host, s: SandboxId, k: Key)
    requires Inv(h)
    ensures SandboxOk(h, s) && KeyOk(h, k) && UseOk(h, s, k) && TodoOk(h, s)
  {}

  // ---------------------------------------------------------------- frames

  ghost predicate SameDevices(h: Host, h': Host, k: Key) {
    && (k in h.inFlight <==> k in h'.inFlight)
    && forall id :: Has(h, id, k) <==> Has(h', id, k)
  }

  lemma KeyFrame(h: Host, h': Host, k: Key)
    requires KeyOk(h, k)
    requires Sh(h', k) == Sh(h, k) && SameDevices(h, h', k)
    requires Sh(h, k).lock.ByCreate? ==> Sb(h', Sh(h, k).lock.owner).op == Sb(h, Sh(h, k).lock.owner).op
    ensures KeyOk(h', k)
  {}

  lemma AccountedFrame(h: Host, h': Host, k: Key, y: Shared, y': Shared)
    requires Accounted(h, k, y) && SameDevices(h, h', k) && y'.record == y.record && y'.mount == y.mount
    ensures Accounted(h', k, y')
  {}

  /** Releasing the key's lock keeps its record accounted for. */
  lemma KeyUnlocked(h: Host, h': Host, k: Key)
    requires KeyOk(h, k)
    requires Sh(h', k) == Sh(h, k).(lock := Free) && SameDevices(h, h', k)
    ensures KeyOk(h', k)
  {}

  // ---------------------------------------------------------------- create

  lemma CreateSandbox(h: Host, s: SandboxId, a: CreateAct, s': SandboxId)
    requires Inv(h)
    ensures SandboxOk(StepCreate(h, s, a), s')
  {
    assert SandboxOk(h, s') && SandboxOk(h, s);
  }

  lemma CreateKey(h: Host, s: SandboxId, a: CreateAct, k': Key)
    requires KeyOk(h, k') && SandboxOk(h, s)
    ensures KeyOk(StepCreate(h, s, a), k')
  {
    if a.LockKey? {
      LockedKey(h, s, a, k');
    } else {
      CreateFrame(h, s, a, k');
      KeyFrame(h, StepCreate(h, s, a), k');
    }
  }

  lemma LockedKey(h: Host, s: SandboxId, a: CreateAct, k': Key)
    requires KeyOk(h, k') && SandboxOk(h, s) && a.LockKey?
    ensures KeyOk(StepCreate(h, s, a), k')
  {
    if Sh(StepCreate(h, s, a), k') == Sh(h, k') { KeyFrame(h, StepCreate(h, s, a), k'); }
  }

  lemma CreateFrame(h: Host, s: SandboxId, a: CreateAct, k': Key)
    requires KeyOk(h, k') && !a.LockKey?
    ensures var h' := StepCreate(h, s, a);
            && Sh(h', k') == Sh(h, k') && SameDevices(h, h', k')
            && (Sh(h, k').lock.ByCreate? ==> Sb(h', Sh(h, k').lock.owner).op == Sb(h, Sh(h, k').lock.owner).op)
  {}

  lemma CreateUse(h: Host, s: SandboxId, a: CreateAct, s': SandboxId, k': Key)
    requires Inv(h)
    ensures UseOk(StepCreate(h, s, a), s', k')
  {
    Know(h, s', k');
  }

  // ---------------------------------------------------------------- acquire

  lemma AcquireSandbox(h: Host, s: SandboxId, a: AcquireAct, s': SandboxId)
    requires SandboxOk(h, s') && SandboxOk(h, s)
    ensures SandboxOk(StepAcquire(h, s, a), s')
  {
    if s' != s { AcquireLocks(h, s, a, s'); } else { AcquireOwnSandbox(h, s, a); }
  }

  lemma AcquireOwnSandbox(h: Host, s: SandboxId, a: AcquireAct)
    requires SandboxOk(h, s)
    ensures SandboxOk(StepAcquire(h, s, a), s)
  {
    if SettingUp(a) { SetUpOwnSandbox(h, s, a); } else { DeviceOwnSandbox(h, s, a); }
  }

  /** The steps of acquireSharedSnapfiles up to reading the record, and its two ends. */
  predicate SettingUp(a: AcquireAct) {
    a.InstallLease? || a.LinkAlias? || a.ReadRecord? || a.Unlock? || a.Abort?
  }

  lemma SetUpOwnSandbox(h: Host, s: SandboxId, a: AcquireAct)
    requires SandboxOk(h, s) && SettingUp(a)
    ensures SandboxOk(StepAcquire(h, s, a), s)
  {}

  lemma DeviceOwnSandbox(h: Host, s: SandboxId, a: AcquireAct)
    requires SandboxOk(h, s) && !SettingUp(a)
    ensures SandboxOk(StepAcquire(h, s, a), s)
  {
    if Recording(a) { RecordOwnSandbox(h, s, a); }
  }

  lemma RecordOwnSandbox(h: Host, s: SandboxId, a: AcquireAct)
    requires SandboxOk(h, s) && Recording(a)
    ensures SandboxOk(StepAcquire(h, s, a), s)
  {}

  /** Only the acquiring sandbox's own lock changes. */
  lemma AcquireLocks(h: Host, s: SandboxId, a: AcquireAct, s': SandboxId)
    requires SandboxOk(h, s') && SandboxOk(h, s) && s' != s
    ensures Sb(StepAcquire(h, s, a), s') == Sb(h, s')
    ensures Sb(h, s').op.Acquiring? ==> Sh(StepAcquire(h, s, a), Sb(h, s').op.key).lock == Sh(h, Sb(h, s').op.key).lock
  {}

  lemma AcquireOtherKey(h: Host, s: SandboxId, a: AcquireAct, k': Key)
    requires KeyOk(h, k') && SandboxOk(h, s)
    requires Sb(h, s).op.Acquiring? ==> k' != Sb(h, s).op.key && KeyOk(h, Sb(h, s).op.key)
    ensures KeyOk(StepAcquire(h, s, a), k')
  {
    if Sb(h, s).op.Acquiring? {
      AcquireOtherDevices(h, s, a, k');
      KeyFrame(h, StepAcquire(h, s, a), k');
    }
  }

  lemma AcquireOtherDevices(h: Host, s: SandboxId, a: AcquireAct, k': Key)
    requires SandboxOk(h, s) && Sb(h, s).op.Acquiring? && k' != Sb(h, s).op.key && KeyOk(h, Sb(h, s).op.key)
    ensures SameDevices(h, StepAcquire(h, s, a), k')
  {
    if a.ReleaseOne? && StepAcquire(h, s, a) != h {
      assert Has(h, a.id, Sb(h, s).op.key);
    }
  }

  lemma AcquireReleaseAccounted(h: Host, s: SandboxId, a: AcquireAct)
    requires Sb(h, s).op.Acquiring? && a.ReleaseOne? && SandboxOk(h, s) && KeyOk(h, Sb(h, s).op.key)
    ensures var h', k := StepAcquire(h, s, a), Sb(h, s).op.key; Accounted(h', k, Sh(h', k))
  {}

  /** The steps that change the key's record, mount or Add. */
  predicate Recording(a: AcquireAct) {
    a.Adopt? || a.ClearRecord? || a.RecordAdd? || a.SendAdd? || a.AddReply? || a.MountDevice?
  }

  lemma AcquireRecordAccounted(h: Host, s: SandboxId, a: AcquireAct)
    requires Sb(h, s).op.Acquiring? && Recording(a) && SandboxOk(h, s) && KeyOk(h, Sb(h, s).op.key)
    ensures var h', k := StepAcquire(h, s, a), Sb(h, s).op.key; Accounted(h', k, Sh(h', k))
  {
    if a.RecordAdd? || a.SendAdd? || a.AddReply? { AcquireAddAccounted(h, s, a); }
  }

  lemma AcquireAddAccounted(h: Host, s: SandboxId, a: AcquireAct)
    requires Sb(h, s).op.Acquiring? && SandboxOk(h, s) && KeyOk(h, Sb(h, s).op.key)
    requires a.RecordAdd? || a.SendAdd? || a.AddReply?
    ensures var h', k := StepAcquire(h, s, a), Sb(h, s).op.key; Accounted(h', k, Sh(h', k))
  {}

  lemma AcquireFrame(h: Host, s: SandboxId, a: AcquireAct)
    requires Sb(h, s).op.Acquiring? && !Recording(a) && !a.ReleaseOne?
    ensures var h', k := StepAcquire(h, s, a), Sb(h, s).op.key;
            SameDevices(h, h', k) && Sh(h', k).record == Sh(h, k).record && Sh(h', k).mount == Sh(h, k).mount
  {}

  lemma AcquireOwnAccounted(h: Host, s: SandboxId, a: AcquireAct)
    requires Sb(h, s).op.Acquiring? && SandboxOk(h, s) && KeyOk(h, Sb(h, s).op.key)
    ensures var h', k := StepAcquire(h, s, a), Sb(h, s).op.key; Accounted(h', k, Sh(h', k))
  {
    if a.ReleaseOne? {
      AcquireReleaseAccounted(h, s, a);
    } else if Recording(a) {
      AcquireRecordAccounted(h, s, a);
    } else {
      var h', k := StepAcquire(h, s, a), Sb(h, s).op.key;
      AcquireFrame(h, s, a);
      AccountedFrame(h, h', k, Sh(h, k), Sh(h', k));
    }
  }

  /** The acquiring process still holds the key, and its next step finds what it relies on. */
  ghost predicate AcquirerHolds(h: Host, s: SandboxId, k: Key) {
    && Sb(h, s).op.Acquiring? && Sb(h, s).op.key == k && Sh(h, k).lock == ByCreate(s)
    && AcquirerOk(h, k, Sh(h, k), Sb(h, s).op.step)
  }

  lemma AcquireRecordStep(h: Host, s: SandboxId, a: AcquireAct, k: Key)
    requires SandboxOk(h, s) && KeyOk(h, k) && AcquirerHolds(h, s, k) && Recording(a)
    ensures AcquirerHolds(StepAcquire(h, s, a), s, k)
  {}

  lemma AcquireOtherStep(h: Host, s: SandboxId, a: AcquireAct, k: Key)
    requires SandboxOk(h, s) && KeyOk(h, k) && AcquirerHolds(h, s, k) && !Recording(a)
    requires Sb(StepAcquire(h, s, a), s).op.Acquiring?
    ensures AcquirerHolds(StepAcquire(h, s, a), s, k)
  {}

  lemma AcquireOwnStep(h: Host, s: SandboxId, a: AcquireAct)
    requires Sb(h, s).op.Acquiring? && SandboxOk(h, s) && KeyOk(h, Sb(h, s).op.key)
    requires Sb(StepAcquire(h, s, a), s).op.Acquiring?
    ensures AcquirerHolds(StepAcquire(h, s, a), s, Sb(h, s).op.key)
  {
    var k := Sb(h, s).op.key;
    if Recording(a) { AcquireRecordStep(h, s, a, k); } else { AcquireOtherStep(h, s, a, k); }
  }

  lemma AcquireKey(h: Host, s: SandboxId, a: AcquireAct, k': Key)
    requires Inv(h)
    ensures KeyOk(StepAcquire(h, s, a), k')
  {
    var h' := StepAcquire(h, s, a);
    Know(h, s, k');
    if Sb(h, s).op.Acquiring? { Know(h, s, Sb(h, s).op.key); }
    if !Sb(h, s).op.Acquiring? || k' != Sb(h, s).op.key {
      AcquireOtherKey(h, s, a, k');
    } else {
      AcquireOwnAccounted(h, s, a);
      if Sb(h', s).op.Acquiring? {
        AcquireOwnStep(h, s, a);
      } else {
        assert Sh(h', k').lock == Free;
      }
    }
  }

  lemma AcquireUse(h: Host, s: SandboxId, a: AcquireAct, s': SandboxId, k': Key)
    requires Inv(h)
    ensures UseOk(StepAcquire(h, s, a), s', k')
  {
    Know(h, s', k');
    if Sb(h, s).op.Acquiring? {
      Know(h, s, Sb(h, s).op.key);
      AcquireUseHere(h, s, a, s', k');
    }
  }

  lemma AcquireUseHere(h: Host, s: SandboxId, a: AcquireAct, s': SandboxId, k': Key)
    requires Sb(h, s).op.Acquiring? && SandboxOk(h, s) && KeyOk(h, Sb(h, s).op.key) && UseOk(h, s', k')
    ensures UseOk(StepAcquire(h, s, a), s', k')
  {
    AcquireLockFrame(h, s, a, k');
    AcquireNewUse(h, s, a, s', k');
    if Sh(h, k').mount.Some? { AcquireKeepsMount(h, s, a, k'); }
  }

  lemma AcquireLockFrame(h: Host, s: SandboxId, a: AcquireAct, k': Key)
    requires Sb(h, s).op.Acquiring? && Sh(h, Sb(h, s).op.key).lock == ByCreate(s)
    ensures Sh(StepAcquire(h, s, a), k').lock.ByPrune? ==> Sh(StepAcquire(h, s, a), k').lock == Sh(h, k').lock
  {}

  /** The only use an acquire adds is its own, of the key it holds and has mounted. */
  lemma AcquireNewUse(h: Host, s: SandboxId, a: AcquireAct, s': SandboxId, k': Key)
    requires Sb(h, s).op.Acquiring?
    ensures Uses(Sb(StepAcquire(h, s, a), s'), k') ==>
              Uses(Sb(h, s'), k') || (k' == Sb(h, s).op.key && Sb(h, s).op.step.Mounted? && a.Unlock?)
  {}

  // ---------------------------------------------------------------- teardown

  /** Only one sandbox differs, no process starts or stops acquiring, and only its own private devices can be gone. */
  ghost predicate OneSandbox(h: Host, h': Host, s: SandboxId) {
    && h'.keys == h.keys && h'.inFlight == h.inFlight
    && (forall s' | s' != s :: Sb(h', s') == Sb(h, s'))
    && (Sb(h, s).op.Acquiring? ==> h' == h)
    && !(Sb(h', s).op.Acquiring? && !Sb(h, s).op.Acquiring?)
    && OnlyOwnGone(h, h', s)
  }

  ghost predicate OnlyOwnGone(h: Host, h': Host, s: SandboxId) {
    && (forall id <- h.devices :: id in h'.devices || Owns(h, id, s))
    && (forall id <- h'.devices :: id in h.devices && h'.devices[id] == h.devices[id])
  }

  /** Teardown writes one sandbox only: no key's record, mount or lock, and no device but the sandbox's own. */
  lemma TearFrame(h: Host, s: SandboxId, a: TearAct)
    requires SandboxOk(h, s) && TodoOk(h, s)
    ensures OneSandbox(h, StepTear(h, s, a), s)
  {
    if a.UnmountOwn? {
      UnmountFrame(h, s, a);
    } else if a.ReleaseOwn? {
      ReleaseOwnFrame(h, s, a);
    }
  }

  /** With a lease no unmount is tried; without one there is neither an alias nor a shared mount point. */
  lemma UnmountFrame(h: Host, s: SandboxId, a: TearAct)
    requires SandboxOk(h, s) && a.UnmountOwn?
    ensures OneSandbox(h, StepTear(h, s, a), s)
  {}

  lemma ReleaseOwnFrame(h: Host, s: SandboxId, a: TearAct)
    requires TodoOk(h, s) && a.ReleaseOwn?
    ensures OneSandbox(h, StepTear(h, s, a), s)
  {}

  lemma OwnGoneIsNotShared(h: Host, h': Host, s: SandboxId, k: Key)
    requires OneSandbox(h, h', s)
    ensures SameDevices(h, h', k)
  {
    assert forall id <- h.devices :: id in h'.devices || Owns(h, id, s);
  }

  lemma TearOwn(h: Host, s: SandboxId, a: TearAct)
    requires SandboxOk(h, s) && Sb(h, s).op.Tearing?
    ensures SandboxOk(StepTear(h, s, a), s)
  {
    if Stopping(a) { TearOwnStopping(h, s, a); } else { TearOwnRest(h, s, a); }
  }

  predicate Stopping(a: TearAct) {
    a.ReadAlias? || a.Save? || a.StopVmm? || a.UnmountOwn?
  }

  lemma TearOwnStopping(h: Host, s: SandboxId, a: TearAct)
    requires SandboxOk(h, s) && Sb(h, s).op.Tearing? && Stopping(a)
    ensures SandboxOk(StepTear(h, s, a), s)
  {
    if a.ReadAlias? || a.Save? { TearOwnMarking(h, s, a); }
  }

  lemma TearOwnMarking(h: Host, s: SandboxId, a: TearAct)
    requires SandboxOk(h, s) && Sb(h, s).op.Tearing? && (a.ReadAlias? || a.Save?)
    ensures SandboxOk(StepTear(h, s, a), s)
  {}

  lemma TearOwnRest(h: Host, s: SandboxId, a: TearAct)
    requires SandboxOk(h, s) && Sb(h, s).op.Tearing? && !Stopping(a)
    ensures SandboxOk(StepTear(h, s, a), s)
  {}

  lemma TearSandbox(h: Host, s: SandboxId, a: TearAct, s': SandboxId)
    requires Inv(h)
    ensures SandboxOk(StepTear(h, s, a), s')
  {
    assert SandboxOk(h, s') && SandboxOk(h, s) && TodoOk(h, s);
    TearFrame(h, s, a);
    if s' == s && Sb(h, s).op.Tearing? { TearOwn(h, s, a); }
  }

  lemma TearKey(h: Host, s: SandboxId, a: TearAct, k': Key)
    requires Inv(h)
    ensures KeyOk(StepTear(h, s, a), k')
  {
    Know(h, s, k');
    TearFrame(h, s, a);
    OwnGoneIsNotShared(h, StepTear(h, s, a), s, k');
    KeyFrame(h, StepTear(h, s, a), k');
  }

  lemma TearUse(h: Host, s: SandboxId, a: TearAct, s': SandboxId, k': Key)
    requires Inv(h)
    ensures UseOk(StepTear(h, s, a), s', k')
  {
    Know(h, s', k');
    Know(h, s, k');
    TearFrame(h, s, a);
    if s' == s { TearOnlyDropsUse(h, s, a, k'); }
  }

  lemma TearOnlyDropsUse(h: Host, s: SandboxId, a: TearAct, k: Key)
    ensures Uses(Sb(StepTear(h, s, a), s), k) ==> Uses(Sb(h, s), k)
  {
    TearChangesVmm(h, s, a);
  }

  lemma TearChangesVmm(h: Host, s: SandboxId, a: TearAct)
    ensures var x, x' := Sb(h, s), Sb(StepTear(h, s, a), s);
            (x'.vmm == x.vmm || x'.vmm == None) && (x'.op == x.op || x'.op.Idle? || x'.op.Tearing?)
  {
    if Stopping(a) { StoppingChangesVmm(h, s, a); }
  }

  lemma StoppingChangesVmm(h: Host, s: SandboxId, a: TearAct)
    requires Stopping(a)
    ensures var x, x' := Sb(h, s), Sb(StepTear(h, s, a), s);
            (x'.vmm == x.vmm || x'.vmm == None) && (x'.op == x.op || x'.op.Idle? || x'.op.Tearing?)
  {}

  // ---------------------------------------------------------------- prune

  lemma PruneSandbox(h: Host, k: Key, a: PruneAct, s': SandboxId)
    requires Inv(h)
    ensures SandboxOk(StepPrune(h, k, a), s')
  {
    assert SandboxOk(h, s');
  }

  lemma PruneOwnAccounted(h: Host, k: Key, a: PruneAct)
    requires KeyOk(h, k)
    ensures var h' := StepPrune(h, k, a); Accounted(h', k, Sh(h', k))
  {
    var h' := StepPrune(h, k, a);
    if a.ReleaseOld? {
      PruneReleaseAccounted(h, k, a);
    } else if !a.Unmount? && !a.RemoveKey? {
      PruneFrame(h, k, a);
      AccountedFrame(h, h', k, Sh(h, k), Sh(h', k));
    }
  }

  lemma PruneReleaseAccounted(h: Host, k: Key, a: PruneAct)
    requires KeyOk(h, k) && a.ReleaseOld?
    ensures var h' := StepPrune(h, k, a); Accounted(h', k, Sh(h', k))
  {}

  lemma PruneFrame(h: Host, k: Key, a: PruneAct)
    requires !a.ReleaseOld? && !a.Unmount? && !a.RemoveKey?
    ensures var h' := StepPrune(h, k, a);
            SameDevices(h, h', k) && Sh(h', k).record == Sh(h, k).record && Sh(h', k).mount == Sh(h, k).mount
  {}

  lemma PruneOwnStep(h: Host, k: Key, a: PruneAct)
    requires KeyOk(h, k)
    ensures var h' := StepPrune(h, k, a);
            Sh(h', k).lock.ByPrune? ==> PrunerOk(h', k, Sh(h', k), Sh(h', k).lock.step)
    ensures Sh(StepPrune(h, k, a), k).lock.ByCreate? ==> StepPrune(h, k, a) == h
  {}

  lemma PruneOtherDevices(h: Host, k: Key, a: PruneAct, k': Key)
    requires KeyOk(h, k) && k' != k
    ensures SameDevices(h, StepPrune(h, k, a), k')
  {
    if a.ReleaseOld? && StepPrune(h, k, a) != h {
      assert Has(h, a.id, k);
    }
  }

  lemma PruneOtherFrame(h: Host, k: Key, a: PruneAct, k': Key)
    requires k' != k
    ensures Sh(StepPrune(h, k, a), k') == Sh(h, k') && StepPrune(h, k, a).sandboxes == h.sandboxes
  {}

  lemma PruneOtherKey(h: Host, k: Key, a: PruneAct, k': Key)
    requires KeyOk(h, k) && KeyOk(h, k') && k' != k
    ensures KeyOk(StepPrune(h, k, a), k')
  {
    PruneOtherDevices(h, k, a, k');
    PruneOtherFrame(h, k, a, k');
    KeyFrame(h, StepPrune(h, k, a), k');
  }

  lemma PruneKey(h: Host, k: Key, a: PruneAct, k': Key)
    requires KeyOk(h, k) && KeyOk(h, k')
    ensures KeyOk(StepPrune(h, k, a), k')
  {
    if k' != k {
      PruneOtherKey(h, k, a, k');
    } else {
      PruneOwnAccounted(h, k, a);
      PruneOwnStep(h, k, a);
    }
  }

  lemma PruneUse(h: Host, k: Key, a: PruneAct, s': SandboxId, k': Key)
    requires Inv(h)
    ensures UseOk(StepPrune(h, k, a), s', k')
  {
    Know(h, s', k');
    Know(h, s', k);
    PruneUseHere(h, k, a, s', k');
  }

  lemma PruneUseHere(h: Host, k: Key, a: PruneAct, s': SandboxId, k': Key)
    requires SandboxOk(h, s') && UseOk(h, s', k') && UseOk(h, s', k)
    ensures UseOk(StepPrune(h, k, a), s', k')
  {}

  // ---------------------------------------------------------------- environment

  lemma EnvSandbox(h: Host, a: EnvAct, s': SandboxId)
    requires SandboxOk(h, s') && (a.CrashSandbox? ==> SandboxOk(h, a.s))
    ensures SandboxOk(StepEnv(h, a), s')
  {}

  lemma EnvLanding(h: Host, a: EnvAct, k': Key)
    requires KeyOk(h, k') && (a.AddLands? || a.AddFails?)
    ensures KeyOk(StepEnv(h, a), k')
  {
    if a.key != k' { KeyFrame(h, StepEnv(h, a), k'); }
  }

  /** Whatever else happens changes no device or Add of a shared key, and at most frees its lock. */
  lemma EnvFrame(h: Host, a: EnvAct, k': Key)
    requires KeyOk(h, k') && !a.AddLands? && !a.AddFails? && (a.CrashSandbox? ==> SandboxOk(h, a.s))
    ensures var h' := StepEnv(h, a);
            && SameDevices(h, h', k')
            && (Sh(h', k') == Sh(h, k') || Sh(h', k') == Sh(h, k').(lock := Free))
            && (Sh(h', k').lock.ByCreate? ==> Sb(h', Sh(h', k').lock.owner).op == Sb(h, Sh(h', k').lock.owner).op)
  {}

  lemma EnvKey(h: Host, a: EnvAct, k': Key)
    requires KeyOk(h, k') && (a.CrashSandbox? ==> SandboxOk(h, a.s))
    ensures KeyOk(StepEnv(h, a), k')
  {
    if a.AddLands? || a.AddFails? {
      EnvLanding(h, a, k');
    } else {
      var h' := StepEnv(h, a);
      EnvFrame(h, a, k');
      if Sh(h', k') == Sh(h, k') { KeyFrame(h, h', k'); } else { KeyUnlocked(h, h', k'); }
    }
  }

  lemma EnvUse(h: Host, a: EnvAct, s': SandboxId, k': Key)
    requires SandboxOk(h, s') && UseOk(h, s', k') && (a.CrashSandbox? ==> SandboxOk(h, a.s) && UseOk(h, a.s, k'))
    ensures UseOk(StepEnv(h, a), s', k')
  {}

  // ---------------------------------------------------------------- what a teardown has yet to release

  /** The sandbox's own devices are still there. */
  ghost predicate KeepsOwn(h: Host, h': Host, s: SandboxId) {
    forall id <- h.devices :: Owns(h, id, s) ==> Owns(h', id, s)
  }

  lemma TodoFrame(h: Host, h': Host, s: SandboxId)
    requires TodoOk(h, s) && KeepsOwn(h, h', s)
    requires Sb(h', s).op == Sb(h, s).op || !Sb(h', s).op.Tearing? || !Sb(h', s).op.at.Freeing?
    ensures TodoOk(h', s)
  {}

  lemma CreateTodo(h: Host, s: SandboxId, a: CreateAct, s': SandboxId)
    requires TodoOk(h, s')
    ensures TodoOk(StepCreate(h, s, a), s')
  {
    TodoFrame(h, StepCreate(h, s, a), s');
  }

  lemma AcquireKeepsOwn(h: Host, s: SandboxId, a: AcquireAct, s': SandboxId)
    requires Sb(h, s).op.Acquiring? ==> SandboxOk(h, s) && KeyOk(h, Sb(h, s).op.key)
    ensures KeepsOwn(h, StepAcquire(h, s, a), s')
  {
    forall id <- h.devices | id !in StepAcquire(h, s, a).devices ensures h.devices[id].config.SharedConfig? {
      AcquireReleasesListed(h, s, a, id);
    }
  }

  lemma AcquireTodo(h: Host, s: SandboxId, a: AcquireAct, s': SandboxId)
    requires TodoOk(h, s') && (Sb(h, s).op.Acquiring? ==> SandboxOk(h, s) && KeyOk(h, Sb(h, s).op.key))
    ensures TodoOk(StepAcquire(h, s, a), s')
  {
    AcquireKeepsOwn(h, s, a, s');
    AcquireOps(h, s, a, s');
    TodoFrame(h, StepAcquire(h, s, a), s');
  }

  lemma AcquireOps(h: Host, s: SandboxId, a: AcquireAct, s': SandboxId)
    ensures var op := Sb(StepAcquire(h, s, a), s').op; op == Sb(h, s').op || !op.Tearing? || !op.at.Freeing?
  {}

  lemma TearTodo(h: Host, s: SandboxId, a: TearAct, s': SandboxId)
    requires TodoOk(h, s') && TodoOk(h, s) && SandboxOk(h, s)
    ensures TodoOk(StepTear(h, s, a), s')
  {
    var h' := StepTear(h, s, a);
    TearFrame(h, s, a);
    if s' != s {
      TodoFrame(h, h', s');
    } else if a.ListPrivate? || a.ReleaseOwn? {
      TearOwnTodo(h, s, a);
    } else {
      TearKeepsDevices(h, s, a);
      TodoFrame(h, h', s);
    }
  }

  lemma TearOwnTodo(h: Host, s: SandboxId, a: TearAct)
    requires TodoOk(h, s) && (a.ListPrivate? || a.ReleaseOwn?)
    ensures TodoOk(StepTear(h, s, a), s)
  {}

  lemma TearKeepsDevices(h: Host, s: SandboxId, a: TearAct)
    requires !a.ListPrivate? && !a.ReleaseOwn?
    ensures var h' := StepTear(h, s, a);
            && h'.devices == h.devices
            && (Sb(h', s).op == Sb(h, s).op || !Sb(h', s).op.Tearing? || !Sb(h', s).op.at.Freeing?)
  {}

  lemma PruneTodo(h: Host, k: Key, a: PruneAct, s': SandboxId)
    requires TodoOk(h, s') && KeyOk(h, k)
    ensures TodoOk(StepPrune(h, k, a), s')
  {
    forall id <- h.devices | id !in StepPrune(h, k, a).devices ensures h.devices[id].config.SharedConfig? {
      PruneReleasesListed(h, k, a, id);
    }
    TodoFrame(h, StepPrune(h, k, a), s');
  }

  lemma EnvTodo(h: Host, a: EnvAct, s': SandboxId)
    requires TodoOk(h, s')
    ensures TodoOk(StepEnv(h, a), s')
  {
    TodoFrame(h, StepEnv(h, a), s');
  }

  // ---------------------------------------------------------------- every run

  lemma StepKeepsInv(h: Host, a: Action)
    requires Inv(h)
    ensures Inv(Step(h, a))
  {
    forall s ensures SandboxOk(Step(h, a), s) {
      assert SandboxOk(h, s);
      match a
      case Create(s', c) => CreateSandbox(h, s', c, s);
      case Acquire(s', c) => assert SandboxOk(h, s'); AcquireSandbox(h, s', c, s);
      case Tear(s', c) => TearSandbox(h, s', c, s);
      case Prune(k', c) => PruneSandbox(h, k', c, s);
      case Env(c) => assert c.CrashSandbox? ==> SandboxOk(h, c.s); EnvSandbox(h, c, s);
    }
    forall k ensures KeyOk(Step(h, a), k) {
      match a
      case Create(s', c) => Know(h, s', k); CreateKey(h, s', c, k);
      case Acquire(s', c) => AcquireKey(h, s', c, k);
      case Tear(s', c) => TearKey(h, s', c, k);
      case Prune(k', c) => assert KeyOk(h, k') && KeyOk(h, k); PruneKey(h, k', c, k);
      case Env(c) => assert KeyOk(h, k) && (c.CrashSandbox? ==> SandboxOk(h, c.s)); EnvKey(h, c, k);
    }
    forall s, k ensures UseOk(Step(h, a), s, k) {
      match a
      case Create(s', c) => CreateUse(h, s', c, s, k);
      case Acquire(s', c) => AcquireUse(h, s', c, s, k);
      case Tear(s', c) => TearUse(h, s', c, s, k);
      case Prune(k', c) => PruneUse(h, k', c, s, k);
      case Env(c) => Know(h, s, k); if c.CrashSandbox? { Know(h, c.s, k); } EnvUse(h, c, s, k);
    }
    StepKeepsTodos(h, a);
  }

  lemma StepKeepsTodos(h: Host, a: Action)
    requires Inv(h)
    ensures AllTodos(Step(h, a))
  {
    forall s ensures TodoOk(Step(h, a), s) {
      assert TodoOk(h, s);
      match a
      case Create(s', c) => CreateTodo(h, s', c, s);
      case Acquire(s', c) => if Sb(h, s').op.Acquiring? { Know(h, s', Sb(h, s').op.key); } AcquireTodo(h, s', c, s);
      case Tear(s', c) => assert TodoOk(h, s') && SandboxOk(h, s'); TearTodo(h, s', c, s);
      case Prune(k', c) => assert KeyOk(h, k'); PruneTodo(h, k', c, s);
      case Env(c) => EnvTodo(h, c, s);
    }
  }

  lemma {:induction false} RunKeepsInv(actions: seq<Action>)
    ensures Inv(Run(EMPTY_HOST, actions))
  {
    if actions != [] {
      RunKeepsInv(actions[..|actions| - 1]);
      StepKeepsInv(Run(EMPTY_HOST, actions[..|actions| - 1]), actions[|actions| - 1]);
    }
  }

  /** In every run, a live VMM has its leased device attached under the key's config and mounted. */
  lemma LiveVmmIsBacked(actions: seq<Action>, s: SandboxId, k: Key)
    requires Sb(Run(EMPTY_HOST, actions), s).vmm == Some(k)
    ensures var h := Run(EMPTY_HOST, actions);
            && Sh(h, k).mount.Some?
            && Has(h, Sh(h, k).mount.value, k)
            && Sh(h, k).record == Attached(Sh(h, k).mount.value)
            && k !in h.inFlight
  {
    RunKeepsInv(actions);
    Know(Run(EMPTY_HOST, actions), s, k);
  }

  /**
   In every run the durable record accounts for the daemon: a device needs a record that names it or
   that says an Add was issued, an in-flight Add needs the latter, and the two exclude each other.
   So once eviction has removed the record, or recovery has cleared it, nothing is attached, mounted
   or still able to land.
   */
  lemma RecordAccountsForDaemon(actions: seq<Action>, k: Key)
    ensures var h := Run(EMPTY_HOST, actions);
            && (forall id :: Has(h, id, k) ==> Sh(h, k).record.AddIssued? || Sh(h, k).record == Attached(id))
            && (forall id, id' :: Has(h, id, k) && Has(h, id', k) ==> id == id')
            && (k in h.inFlight ==> Sh(h, k).record.AddIssued? && forall id :: !Has(h, id, k))
            && (Sh(h, k).record.NoRecord? || Sh(h, k).record.NoDevice? ==>
                  k !in h.inFlight && Sh(h, k).mount == None && forall id :: !Has(h, id, k))
  {
    RunKeepsInv(actions);
    assert KeyOk(Run(EMPTY_HOST, actions), k);
  }

  lemma AcquireKeepsMount(h: Host, s: SandboxId, a: AcquireAct, k: Key)
    requires Sh(h, k).mount.Some?
    ensures Sh(StepAcquire(h, s, a), k).mount == Sh(h, k).mount
  {}

  lemma CreateKeepsMount(h: Host, s: SandboxId, a: CreateAct, k: Key)
    ensures Sh(StepCreate(h, s, a), k).mount == Sh(h, k).mount
  {}

  lemma EnvKeepsMount(h: Host, a: EnvAct, k: Key)
    ensures Sh(StepEnv(h, a), k).mount == Sh(h, k).mount
  {}

  lemma PruneUnmountsIdle(h: Host, k: Key, a: PruneAct, k': Key)
    requires Sh(h, k').mount != Sh(StepPrune(h, k, a), k').mount
    ensures k' == k && a == Unmount && Sh(h, k).lock == ByPrune(Scanned)
  {}

  /**
   A shared filesystem is unmounted only by the prune that holds the key's lock, and only when no
   sandbox uses it, although the scan read the sandboxes one at a time. In particular no create
   rollback or delete ever unmounts it, directly or through the alias.
   */
  lemma OnlyPruneUnmounts(actions: seq<Action>, a: Action, k: Key)
    ensures var h := Run(EMPTY_HOST, actions);
            Sh(h, k).mount.Some? && Sh(Step(h, a), k).mount != Sh(h, k).mount ==>
              a == Prune(k, Unmount) && forall s :: !Uses(Sb(h, s), k)
  {
    var h := Run(EMPTY_HOST, actions);
    if Sh(h, k).mount.Some? && Sh(Step(h, a), k).mount != Sh(h, k).mount {
      RunKeepsInv(actions);
      UnmountIsPrune(h, a, k);
    }
  }

  lemma UnmountIsPrune(h: Host, a: Action, k: Key)
    requires Inv(h) && Sh(h, k).mount.Some? && Sh(Step(h, a), k).mount != Sh(h, k).mount
    ensures a == Prune(k, Unmount) && forall s :: !Uses(Sb(h, s), k)
  {
    match a
    case Create(s, c) => CreateKeepsMount(h, s, c, k);
    case Acquire(s, c) => AcquireKeepsMount(h, s, c, k);
    case Tear(s, c) => assert SandboxOk(h, s) && TodoOk(h, s); TearFrame(h, s, c);
    case Env(c) => EnvKeepsMount(h, c, k);
    case Prune(k', c) =>
      PruneUnmountsIdle(h, k', c, k);
      ScannedKeyIsUnused(h, k);
  }

  lemma ScannedKeyIsUnused(h: Host, k: Key)
    requires AllUses(h) && Sh(h, k).lock == ByPrune(Scanned)
    ensures forall s :: !Uses(Sb(h, s), k)
  {
    forall s ensures !Uses(Sb(h, s), k) { assert UseOk(h, s, k); }
  }

  lemma AcquireReleasesListed(h: Host, s: SandboxId, a: AcquireAct, id: DevId)
    requires id in h.devices && id !in StepAcquire(h, s, a).devices
    ensures Sb(h, s).op.Acquiring? && Sb(h, s).op.step.Releasing? && id in Sb(h, s).op.step.todo
  {}

  lemma PruneReleasesListed(h: Host, k: Key, a: PruneAct, id: DevId)
    requires id in h.devices && id !in StepPrune(h, k, a).devices
    ensures Sh(h, k).lock.ByPrune? && Sh(h, k).lock.step.PReleasing? && id in Sh(h, k).lock.step.ids
  {}

  /** No process's Release detaches a device of another config, whatever ids were recycled meanwhile. */
  lemma ReleaseHitsOwnConfig(actions: seq<Action>, a: Action, id: DevId)
    requires !a.Env?
    requires id in Run(EMPTY_HOST, actions).devices && id !in Step(Run(EMPTY_HOST, actions), a).devices
    ensures var h := Run(EMPTY_HOST, actions);
            || (a.Acquire? && Sb(h, a.s).op.Acquiring? && Has(h, id, Sb(h, a.s).op.key))
            || (a.Prune? && Has(h, id, a.key))
            || (a.Tear? && Owns(h, id, a.s))
  {
    var h := Run(EMPTY_HOST, actions);
    RunKeepsInv(actions);
    match a
    case Create(_, _) =>
    case Acquire(s, c) =>
      AcquireReleasesListed(h, s, c, id);
      assert SandboxOk(h, s) && KeyOk(h, Sb(h, s).op.key);
    case Tear(s, c) => assert SandboxOk(h, s) && TodoOk(h, s); TearFrame(h, s, c);
    case Prune(k, c) =>
      PruneReleasesListed(h, k, c, id);
      assert KeyOk(h, k);
  }

  // ---------------------------------------------------------------- a teardown that met a failure

  /** The step is taken and reports a failure. */
  predicate Faulted(x: Sandbox, a: TearAct) {
    x.op.Tearing? && match a
    case Save(ok) => !ok && x.home && (x.op.at.Marked? || x.op.at.Stopped?)
    case StopVmm(ok) => !ok && x.op.at.Saved?
    case UnmountOwn(ok) => !ok && x.op.at.Noted? && x.op.lease.None?
    case ListPrivate(ok, _) => !ok && x.op.at.Unmounted?
    case ReleaseOwn(id, outcome) => !outcome.Ok? && x.op.at.Freeing? && id in x.op.at.todo
    case EndPrivate(ok) => !ok && x.op.at.Freeing? && x.op.at.todo == {}
    case DropLease(ok) => !ok && x.op.at.Released? && x.op.lease.Some?
    case SaveFinal(ok) => !ok && x.op.at.Dropped? && x.home
    case _ => false
  }

  /** The teardown goes on and remembers a failure. */
  predicate Failing(x: Sandbox) {
    x.op.Tearing? && x.op.failed && !x.op.at.Removing?
  }

  /** The home and its alias are as before, and the teardown has ended or remembers its failure. */
  predicate Kept(x: Sandbox, x': Sandbox) {
    x'.home == x.home && x'.alias == x.alias && (x'.op.Idle? || Failing(x'))
  }

  lemma FaultIsRemembered(h: Host, s: SandboxId, a: TearAct)
    requires Faulted(Sb(h, s), a)
    ensures Kept(Sb(h, s), Sb(StepTear(h, s, a), s))
  {}

  lemma TearElsewhere(h: Host, t: SandboxId, a: TearAct, s: SandboxId)
    requires t != s
    ensures Sb(StepTear(h, t, a), s) == Sb(h, s)
  {}

  lemma FailingTear(h: Host, t: SandboxId, a: TearAct, s: SandboxId)
    requires Failing(Sb(h, s))
    ensures Kept(Sb(h, s), Sb(StepTear(h, t, a), s))
  {
    if t != s { TearElsewhere(h, t, a, s); }
  }

  lemma FailingCreate(h: Host, t: SandboxId, a: CreateAct, s: SandboxId)
    requires Failing(Sb(h, s))
    ensures Kept(Sb(h, s), Sb(StepCreate(h, t, a), s))
  {}

  lemma FailingAcquire(h: Host, t: SandboxId, a: AcquireAct, s: SandboxId)
    requires Failing(Sb(h, s))
    ensures Kept(Sb(h, s), Sb(StepAcquire(h, t, a), s))
  {}

  lemma FailingElsewhere(h: Host, a: Action, s: SandboxId)
    requires Failing(Sb(h, s)) && (a.Prune? || a.Env?)
    ensures Kept(Sb(h, s), Sb(Step(h, a), s))
  {}

  lemma FailingStep(h: Host, a: Action, s: SandboxId)
    requires Failing(Sb(h, s))
    ensures Kept(Sb(h, s), Sb(Step(h, a), s))
  {
    match a
    case Create(t, c) => FailingCreate(h, t, c, s);
    case Acquire(t, c) => FailingAcquire(h, t, c, s);
    case Tear(t, c) => FailingTear(h, t, c, s);
    case Prune(_, _) => FailingElsewhere(h, a, s);
    case Env(_) => FailingElsewhere(h, a, s);
  }

  /**
   After any failure the teardown removes neither the home nor the alias, whatever else happens until it
   ends: what could not be released keeps its record, and a later delete finds it.
   */
  lemma {:induction false} FailedTeardownKeepsHome(h: Host, s: SandboxId, a: TearAct, actions: seq<Action>)
    requires Faulted(Sb(h, s), a)
    requires forall n | 0 <= n < |actions| :: !Sb(Run(Step(h, Tear(s, a)), actions[..n]), s).op.Idle?
    ensures Kept(Sb(h, s), Sb(Run(Step(h, Tear(s, a)), actions), s))
  {
    if actions == [] {
      FaultIsRemembered(h, s, a);
    } else {
      var n := |actions| - 1;
      assert forall m | 0 <= m < n :: actions[..n][..m] == actions[..m];
      FailedTeardownKeepsHome(h, s, a, actions[..n]);
      FailingStep(Run(Step(h, Tear(s, a)), actions[..n]), actions[n], s);
    }
  }

  // ---------------------------------------------------------------- the record goes last

  /** A teardown that comes to removing files has met no failure and holds nothing; a new home has no record yet. */
  predicate Orderly(x: Sandbox) {
    && (x.op.Claimed? ==> !x.file.Lease?)
    && (x.op.Tearing? && x.op.at.Removing? ==> !x.op.failed)
    && (x.op.Tearing? && !x.op.failed && (x.op.at.Dropped? || x.op.at.Removing?) ==>
          x.op.lease == None && x.alias == None && x.vmm == None)
  }

  lemma OrderlyTear(h: Host, t: SandboxId, a: TearAct, s: SandboxId)
    requires SandboxOk(h, s) && Orderly(Sb(h, s))
    ensures Orderly(Sb(StepTear(h, t, a), s))
  {
    if t != s { TearElsewhere(h, t, a, s); } else { OrderlyOwn(h, s, a); }
  }

  lemma OrderlyOwn(h: Host, s: SandboxId, a: TearAct)
    requires SandboxOk(h, s) && Orderly(Sb(h, s))
    ensures Orderly(Sb(StepTear(h, s, a), s))
  {
    if Stopping(a) { OrderlyStopping(h, s, a); }
  }

  lemma OrderlyStopping(h: Host, s: SandboxId, a: TearAct)
    requires Orderly(Sb(h, s)) && Stopping(a)
    ensures Orderly(Sb(StepTear(h, s, a), s))
  {}

  lemma OrderlyCreate(h: Host, t: SandboxId, a: CreateAct, s: SandboxId)
    requires SandboxOk(h, s) && Orderly(Sb(h, s))
    ensures Orderly(Sb(StepCreate(h, t, a), s))
  {}

  lemma OrderlyAcquire(h: Host, t: SandboxId, a: AcquireAct, s: SandboxId)
    requires Orderly(Sb(h, s))
    ensures Orderly(Sb(StepAcquire(h, t, a), s))
  {}

  lemma OrderlyElsewhere(h: Host, a: Action, s: SandboxId)
    requires Orderly(Sb(h, s)) && (a.Prune? || a.Env?)
    ensures Orderly(Sb(Step(h, a), s))
  {}

  lemma {:induction false} RunIsOrderly(actions: seq<Action>, s: SandboxId)
    ensures Orderly(Sb(Run(EMPTY_HOST, actions), s))
  {
    if actions != [] {
      var n := |actions| - 1;
      var h, a := Run(EMPTY_HOST, actions[..n]), actions[n];
      RunIsOrderly(actions[..n], s);
      RunKeepsInv(actions[..n]);
      assert SandboxOk(h, s);
      match a
      case Create(t, c) => OrderlyCreate(h, t, c, s);
      case Acquire(t, c) => OrderlyAcquire(h, t, c, s);
      case Tear(t, c) => OrderlyTear(h, t, c, s);
      case Prune(_, _) => OrderlyElsewhere(h, a, s);
      case Env(_) => OrderlyElsewhere(h, a, s);
    }
  }

  lemma TearRemovesRecord(h: Host, s: SandboxId, a: TearAct)
    requires Sb(h, s).file.Lease? && !Sb(StepTear(h, s, a), s).file.Lease?
    ensures Sb(h, s).op.Tearing? && Sb(h, s).op.at.Removing?
  {}

  lemma CreateRemovesRecord(h: Host, t: SandboxId, a: CreateAct, s: SandboxId)
    requires Sb(h, s).file.Lease? && !Sb(StepCreate(h, t, a), s).file.Lease?
    ensures Sb(h, s).op.Claimed?
  {}

  lemma AcquireKeepsRecord(h: Host, t: SandboxId, a: AcquireAct, s: SandboxId)
    requires Sb(h, s).file.Lease?
    ensures Sb(StepAcquire(h, t, a), s).file.Lease?
  {}

  /** Which steps take a readable record away. */
  lemma RecordRemover(h: Host, a: Action, s: SandboxId)
    requires Sb(h, s).file.Lease? && !Sb(Step(h, a), s).file.Lease? && !(a.Env? && a.env.LoseState?)
    ensures (a.Tear? && a.s == s && Sb(h, s).op.Tearing? && Sb(h, s).op.at.Removing?) || Sb(h, s).op.Claimed?
  {
    match a
    case Create(t, c) => CreateRemovesRecord(h, t, c, s);
    case Acquire(t, c) => AcquireKeepsRecord(h, t, c, s);
    case Tear(t, c) =>
      if t != s { TearElsewhere(h, t, c, s); } else { TearRemovesRecord(h, s, c); }
    case Prune(_, _) =>
    case Env(_) =>
  }

  /**
   Over every run: unless it is lost from outside, a sandbox's record goes only by its own teardown, and only
   after every step of that succeeded and the lease, the alias and the VMM were gone.
   */
  lemma RecordGoesLast(actions: seq<Action>, a: Action, s: SandboxId)
    requires !(a.Env? && a.env.LoseState?)
    requires Sb(Run(EMPTY_HOST, actions), s).file.Lease? && !Sb(Step(Run(EMPTY_HOST, actions), a), s).file.Lease?
    ensures var x := Sb(Run(EMPTY_HOST, actions), s);
            a.Tear? && a.s == s && x.op.Tearing? && !x.op.failed && x.op.lease == None && x.alias == None && x.vmm == None
  {
    RunIsOrderly(actions, s);
    RecordRemover(Run(EMPTY_HOST, actions), a, s);
  }
}
