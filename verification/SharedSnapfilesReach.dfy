/**
 What the protocol can do, from any host: a create reaches a live VMM whatever state the key was left
 in, a failed create and a delete remove the sandbox, and a prune evicts a key nobody leases. Each lemma
 gives the run and everything it changed.
 */
module SharedSnapfilesReach {
  import opened Common
  import opened SharedSnapfiles

  ghost predicate Leads(h: Host, h': Host) {
    exists actions :: h' == Run(h, actions)
  }

  ghost predicate Reachable(h: Host) {
    Leads(EMPTY_HOST, h)
  }

  lemma First(h: Host, a: Action) returns (h': Host)
    ensures h' == Step(h, a) && Leads(h, h')
  {
    assert h == Run(h, []);
    h' := Next(h, h, a);
  }

  lemma RunLast(h: Host, actions: seq<Action>, a: Action)
    ensures Run(h, actions + [a]) == Step(Run(h, actions), a)
  {
    assert (actions + [a])[..|actions|] == actions;
  }

  lemma Next(h: Host, mid: Host, a: Action) returns (h': Host)
    requires Leads(h, mid)
    ensures h' == Step(mid, a) && Leads(h, h')
  {
    var actions :| mid == Run(h, actions);
    h' := Step(mid, a);
    RunLast(h, actions, a);
  }

  lemma {:induction false} LeadsOn(h: Host, mid: Host, actions: seq<Action>)
    requires Leads(h, mid)
    ensures Leads(h, Run(mid, actions))
  {
    if actions != [] {
      var n := |actions| - 1;
      LeadsOn(h, mid, actions[..n]);
      var h' := Next(h, Run(mid, actions[..n]), actions[n]);
    }
  }

  lemma Chain(h: Host, mid: Host, h': Host)
    requires Leads(h, mid) && Leads(mid, h')
    ensures Leads(h, h')
  {
    var actions :| h' == Run(mid, actions);
    LeadsOn(h, mid, actions);
  }

  /** Only this sandbox and this key changed. */
  ghost predicate Only(h: Host, h': Host, s: SandboxId, k: Key) {
    && (forall t | t != s :: Sb(h', t) == Sb(h, t))
    && (forall j | j != k :: Sh(h', j) == Sh(h, j))
  }

  /** No device came or went, and no Add started or ended. */
  ghost predicate Still(h: Host, h': Host) {
    h'.devices == h.devices && h'.inFlight == h.inFlight
  }

  // ---------------------------------------------------------------- create

  /** A sandbox in acquireSharedSnapfiles, after its lease and its alias are in place. */
  function Holding(k: Key, step: AcquireStep): Sandbox {
    Sandbox(true, Lease(Some(k)), Some(k), None, Acquiring(k, step))
  }

  /** A finished create, with a VMM unless it was only to prepare. */
  function Created(k: Key, prepareOnly: bool): Sandbox {
    Sandbox(true, Lease(Some(k)), Some(k), if prepareOnly then None else Some(k), Idle)
  }

  /** mountSharedSnapfiles keeps a mount that is there. */
  function MountOf(y: Shared, id: DevId): Option<DevId> {
    if y.mount.None? then Some(id) else y.mount
  }

  lemma ReachLocked(h: Host, s: SandboxId, k: Key) returns (h': Host)
    requires Sb(h, s) == NEW_SANDBOX && Sh(h, k).lock.Free?
    ensures Leads(h, h') && Only(h, h', s, k) && Still(h, h')
    ensures Sb(h', s) == Sandbox(true, Lease(None), None, None, Acquiring(k, Locked)) && Sh(h', k) == Sh(h, k).(lock := ByCreate(s))
  {
    h' := First(h, Create(s, Claim(k)));
    h' := Next(h, h', Create(s, WriteCreating(true)));
    h' := Next(h, h', Create(s, LockKey));
  }

  lemma ReachLease(h: Host, s: SandboxId, k: Key) returns (h': Host)
    requires Sb(h, s) == NEW_SANDBOX && Sh(h, k).lock.Free?
    ensures Leads(h, h') && Only(h, h', s, k) && Still(h, h')
    ensures Sb(h', s) == Holding(k, Aliased) && Sh(h', k) == Sh(h, k).(lock := ByCreate(s))
  {
    h' := ReachLocked(h, s, k);
    h' := Next(h, h', Acquire(s, InstallLease));
    h' := Next(h, h', Acquire(s, LinkAlias));
  }

  lemma ReachReady(h: Host, s: SandboxId, k: Key, id: DevId) returns (h': Host)
    requires Sb(h, s) == Holding(k, Have(id))
    ensures Leads(h, h') && Only(h, h', s, k) && Still(h, h')
    ensures Sb(h', s) == Sandbox(true, Lease(Some(k)), Some(k), None, Ready(k))
    ensures Sh(h', k) == Shared(Sh(h, k).record, MountOf(Sh(h, k), id), Free)
  {
    h' := First(h, Acquire(s, MountDevice));
    h' := Next(h, h', Acquire(s, Unlock));
  }

  /** The tail of every create: the device it has is mounted unless it already is, and the VMM starts if asked for. */
  lemma ReachLaunch(h: Host, s: SandboxId, k: Key, id: DevId, prepareOnly: bool) returns (h': Host)
    requires Sb(h, s) == Holding(k, Have(id))
    ensures Leads(h, h') && Only(h, h', s, k) && Still(h, h')
    ensures Sb(h', s) == Created(k, prepareOnly) && Sh(h', k) == Shared(Sh(h, k).record, MountOf(Sh(h, k), id), Free)
  {
    h' := ReachReady(h, s, k, id);
    if prepareOnly {
      h' := Next(h, h', Create(s, PrepareOnly));
    } else {
      h' := Next(h, h', Create(s, Launch));
      h' := Next(h, h', Create(s, Finish));
    }
  }

  lemma ReachSent(h: Host, s: SandboxId, k: Key) returns (h': Host)
    requires Sb(h, s) == Holding(k, Cleared)
    ensures Leads(h, h') && Only(h, h', s, k) && h'.devices == h.devices && h'.inFlight == h.inFlight + {k}
    ensures Sb(h', s) == Holding(k, Adding) && Sh(h', k) == Sh(h, k).(record := AddIssued)
  {
    h' := First(h, Acquire(s, RecordAdd));
    h' := Next(h, h', Acquire(s, SendAdd));
  }

  /** A new Add and its reply. */
  lemma ReachAdd(h: Host, s: SandboxId, k: Key, id: DevId) returns (h': Host)
    requires Sb(h, s) == Holding(k, Cleared) && id !in h.devices
    ensures Leads(h, h') && Only(h, h', s, k)
    ensures h'.devices == h.devices[id := Device(SharedConfig(k), false)] && h'.inFlight == h.inFlight - {k}
    ensures Sb(h', s) == Holding(k, Have(id)) && Sh(h', k) == Sh(h, k).(record := Attached(id))
  {
    h' := ReachSent(h, s, k);
    h' := Next(h, h', Env(AddLands(k, id, false)));
    h' := Next(h, h', Acquire(s, AddReply(id)));
  }

  /** A device under the key's config that the record fits is taken over. */
  lemma ReachAdopted(h: Host, s: SandboxId, k: Key, id: DevId) returns (h': Host)
    requires Sb(h, s) == Holding(k, Aliased) && Matches(h, k, id)
    requires Sh(h, k).record.AddIssued? || Sh(h, k).record.Attached?
    ensures Leads(h, h') && Only(h, h', s, k) && Still(h, h')
    ensures Sb(h', s) == Holding(k, Have(id)) && Sh(h', k) == Sh(h, k).(record := Attached(id))
  {
    h' := First(h, Acquire(s, ListDevices(Some(id))));
    h' := Next(h, h', Acquire(s, Adopt));
  }

  lemma {:induction false} ReachAllReleased(h: Host, s: SandboxId, k: Key, todo: set<DevId>) returns (h': Host)
    requires Sb(h, s) == Holding(k, Releasing(todo, false))
    ensures Leads(h, h') && Only(h, h', s, k) && h'.devices == h.devices - todo && h'.inFlight == h.inFlight
    ensures Sb(h', s) == Holding(k, Releasing({}, false)) && Sh(h', k) == Sh(h, k)
    decreases |todo|
  {
    if todo == {} {
      h' := h;
      assert h' == Run(h, []);
    } else {
      var id :| id in todo;
      var mid := First(h, Acquire(s, ReleaseOne(id, Ok)));
      assert todo == {id} + (todo - {id});
      h' := ReachAllReleased(mid, s, k, todo - {id});
      Chain(h, mid, h');
    }
  }

  lemma ReachFenced(h: Host, s: SandboxId, k: Key) returns (h': Host)
    requires Sb(h, s) == Holding(k, Aliased) && Sh(h, k).record.AddIssued? && k !in h.inFlight
    requires forall id <- h.devices :: !Matches(h, k, id)
    ensures Leads(h, h') && Only(h, h', s, k) && Still(h, h')
    ensures Sb(h', s) == Holding(k, Fenced) && Sh(h', k) == Sh(h, k)
  {
    h' := First(h, Acquire(s, ListDevices(None)));
    h' := Next(h, h', Acquire(s, Adopt));
    h' := Next(h, h', Acquire(s, Fence));
  }

  lemma ReachNoDevice(h: Host, s: SandboxId, k: Key) returns (h': Host)
    requires Sb(h, s) == Holding(k, Releasing({}, false))
    ensures Leads(h, h') && Only(h, h', s, k) && Still(h, h')
    ensures Sb(h', s) == Holding(k, Cleared) && Sh(h', k) == Sh(h, k).(record := NoDevice)
  {
    h' := First(h, Acquire(s, ClearRecord));
  }

  /** An uncertain Add that shows no usable device and is no longer in flight is fenced and cleared away. */
  lemma ReachCleared(h: Host, s: SandboxId, k: Key) returns (h': Host)
    requires Sb(h, s) == Holding(k, Aliased) && Sh(h, k).record.AddIssued? && k !in h.inFlight
    requires forall id <- h.devices :: !Matches(h, k, id)
    ensures Leads(h, h') && Only(h, h', s, k) && h'.devices == h.devices - ListIds(h, k) && h'.inFlight == h.inFlight
    ensures Sb(h', s) == Holding(k, Cleared) && Sh(h', k) == Sh(h, k).(record := NoDevice)
  {
    var mid := ReachFenced(h, s, k);
    assert ListIds(mid, k) == ListIds(h, k);
    mid := Next(h, mid, Acquire(s, ListOwned));
    var freed := ReachAllReleased(mid, s, k, ListIds(h, k));
    Chain(h, mid, freed);
    h' := ReachNoDevice(freed, s, k);
    Chain(h, freed, h');
  }

  /** A cold create: nothing is recorded for the key, and one new device serves the VMM. */
  lemma ReachVmm(h: Host, s: SandboxId, k: Key, id: DevId, prepareOnly: bool) returns (h': Host)
    requires Sb(h, s) == NEW_SANDBOX && Sh(h, k).lock.Free? && id !in h.devices
    requires Sh(h, k).record.NoRecord? || Sh(h, k).record.NoDevice?
    ensures Leads(h, h') && Only(h, h', s, k)
    ensures h'.devices == h.devices[id := Device(SharedConfig(k), false)] && h'.inFlight == h.inFlight - {k}
    ensures Sb(h', s) == Created(k, prepareOnly) && Sh(h', k) == Shared(Attached(id), MountOf(Sh(h, k), id), Free)
  {
    var leased := ReachLease(h, s, k);
    leased := Next(h, leased, Acquire(s, ReadRecord));
    var added := ReachAdd(leased, s, k, id);
    Chain(h, leased, added);
    h' := ReachLaunch(added, s, k, id, prepareOnly);
    Chain(h, added, h');
  }

  /**
   A create that finds a recorded device, or the device of an Add whose reply was lost: it is adopted and
   serves the VMM, and no device is added or released.
   */
  lemma ReachVmmByAdoption(h: Host, s: SandboxId, k: Key, id: DevId, prepareOnly: bool) returns (h': Host)
    requires Sb(h, s) == NEW_SANDBOX && Sh(h, k).lock.Free? && Matches(h, k, id)
    requires Sh(h, k).record.AddIssued? || Sh(h, k).record.Attached?
    ensures Leads(h, h') && Only(h, h', s, k) && Still(h, h')
    ensures Sb(h', s) == Created(k, prepareOnly) && Sh(h', k) == Shared(Attached(id), MountOf(Sh(h, k), id), Free)
  {
    var leased := ReachLease(h, s, k);
    var adopted := ReachAdopted(leased, s, k, id);
    Chain(h, leased, adopted);
    h' := ReachLaunch(adopted, s, k, id, prepareOnly);
    Chain(h, adopted, h');
  }

  /** The warm create: a second sandbox on a mounted disk changes nothing about the key or any device. */
  lemma ReachWarmVmm(h: Host, t: SandboxId, k: Key, id: DevId, prepareOnly: bool) returns (h': Host)
    requires Sh(h, k) == Shared(Attached(id), Some(id), Free) && Sb(h, t) == NEW_SANDBOX
    requires id in h.devices && h.devices[id] == Device(SharedConfig(k), false)
    ensures Leads(h, h') && Still(h, h') && Sb(h', t) == Created(k, prepareOnly)
    ensures (forall j :: Sh(h', j) == Sh(h, j)) && forall u | u != t :: Sb(h', u) == Sb(h, u)
  {
    h' := ReachVmmByAdoption(h, t, k, id, prepareOnly);
  }

  /** After an Add that failed for good, whatever it left is released and a new Add serves the VMM. */
  lemma ReachVmmByFence(h: Host, s: SandboxId, k: Key, id: DevId, prepareOnly: bool) returns (h': Host)
    requires Sb(h, s) == NEW_SANDBOX && Sh(h, k).lock.Free? && id !in h.devices
    requires Sh(h, k).record.AddIssued? && k !in h.inFlight && forall d <- h.devices :: !Matches(h, k, d)
    ensures Leads(h, h') && Only(h, h', s, k) && h'.inFlight == h.inFlight
    ensures h'.devices == (h.devices - ListIds(h, k))[id := Device(SharedConfig(k), false)]
    ensures Sb(h', s) == Created(k, prepareOnly) && Sh(h', k) == Shared(Attached(id), MountOf(Sh(h, k), id), Free)
  {
    var leased := ReachLease(h, s, k);
    assert ListIds(leased, k) == ListIds(h, k);
    assert forall d <- leased.devices :: Matches(leased, k, d) <==> Matches(h, k, d);
    var cleared := ReachCleared(leased, s, k);
    Chain(h, leased, cleared);
    var added := ReachAdd(cleared, s, k, id);
    Chain(h, cleared, added);
    h' := ReachLaunch(added, s, k, id, prepareOnly);
    Chain(h, added, h');
  }

  // ---------------------------------------------------------------- delete and the create rollback

  /** A sandbox being torn down, as far as nothing has failed yet. */
  ghost predicate TearsAt(x: Sandbox, lease: Option<Key>, at: TearStep) {
    x.op.Tearing? && x.op.lease == lease && !x.op.failed && x.op.at == at
  }

  /** Only this sandbox changed: every key keeps its record, its mount and its lock. */
  ghost predicate OnlySandbox(h: Host, h': Host, s: SandboxId) {
    h'.keys == h.keys && h'.inFlight == h.inFlight && forall t | t != s :: Sb(h', t) == Sb(h, t)
  }

  /** The lease a teardown works for: the alias decides. */
  function LeaseOf(x: Sandbox): Option<Key>
    requires x.op.Tearing?
  {
    if x.alias.Some? then x.alias else x.op.lease
  }

  lemma ReachSaved(h: Host, s: SandboxId) returns (h': Host)
    requires Sb(h, s).op.Tearing? && TearsAt(Sb(h, s), Sb(h, s).op.lease, Begin)
    requires Sb(h, s).alias.Some? && Sb(h, s).op.lease.Some? ==> Sb(h, s).op.lease == Sb(h, s).alias
    ensures Leads(h, h') && OnlySandbox(h, h', s) && h'.devices == h.devices
    ensures TearsAt(Sb(h', s), LeaseOf(Sb(h, s)), Saved)
    ensures Sb(h', s).alias == Sb(h, s).alias && Sb(h', s).op.mountPoint == Sb(h, s).op.mountPoint
  {
    h' := First(h, Tear(s, ReadAlias));
    h' := Next(h, h', Tear(s, Save(true)));
  }

  lemma ReachStopped(h: Host, s: SandboxId) returns (h': Host)
    requires Sb(h, s).op.Tearing? && TearsAt(Sb(h, s), Sb(h, s).op.lease, Begin)
    requires Sb(h, s).alias.Some? && Sb(h, s).op.lease.Some? ==> Sb(h, s).op.lease == Sb(h, s).alias
    ensures Leads(h, h') && OnlySandbox(h, h', s) && h'.devices == h.devices
    ensures TearsAt(Sb(h', s), LeaseOf(Sb(h, s)), Stopped)
    ensures Sb(h', s).vmm == None && Sb(h', s).alias == Sb(h, s).alias && Sb(h', s).op.mountPoint == Sb(h, s).op.mountPoint
  {
    h' := ReachSaved(h, s);
    h' := Next(h, h', Tear(s, StopVmm(true)));
  }

  lemma ReachUnmounted(h: Host, s: SandboxId, lease: Option<Key>) returns (h': Host)
    requires TearsAt(Sb(h, s), lease, Stopped) && Sb(h, s).vmm == None
    requires lease.None? ==> Sb(h, s).alias.None? && Sb(h, s).op.mountPoint.None?
    ensures Leads(h, h') && OnlySandbox(h, h', s) && h'.devices == h.devices
    ensures TearsAt(Sb(h', s), lease, Unmounted) && Sb(h', s).vmm == None
  {
    h' := First(h, Tear(s, Save(true)));
    h' := Next(h, h', Tear(s, UnmountOwn(true)));
  }

  lemma ReachFreeing(h: Host, s: SandboxId, lease: Option<Key>) returns (h': Host)
    requires TearsAt(Sb(h, s), lease, Stopped) && Sb(h, s).vmm == None
    requires lease.None? ==> Sb(h, s).alias.None? && Sb(h, s).op.mountPoint.None?
    ensures Leads(h, h') && OnlySandbox(h, h', s) && h'.devices == h.devices
    ensures TearsAt(Sb(h', s), lease, Freeing(PrivateIds(h, s, lease.None?))) && Sb(h', s).vmm == None
  {
    h' := ReachUnmounted(h, s, lease);
    assert PrivateIds(h', s, lease.None?) == PrivateIds(h, s, lease.None?);
    h' := Next(h, h', Tear(s, ListPrivate(true, true)));
  }

  lemma {:induction false} ReachAllFreed(h: Host, s: SandboxId, lease: Option<Key>, todo: set<DevId>) returns (h': Host)
    requires TearsAt(Sb(h, s), lease, Freeing(todo)) && Sb(h, s).vmm == None
    ensures Leads(h, h') && OnlySandbox(h, h', s) && h'.devices == h.devices - todo
    ensures TearsAt(Sb(h', s), lease, Freeing({})) && Sb(h', s).vmm == None
    decreases |todo|
  {
    if todo == {} {
      h' := h;
      assert h' == Run(h, []);
    } else {
      var id :| id in todo;
      var mid := First(h, Tear(s, ReleaseOwn(id, Ok)));
      assert todo == {id} + (todo - {id});
      h' := ReachAllFreed(mid, s, lease, todo - {id});
      Chain(h, mid, h');
    }
  }

  lemma ReachDropped(h: Host, s: SandboxId, lease: Option<Key>) returns (h': Host)
    requires TearsAt(Sb(h, s), lease, Freeing({})) && Sb(h, s).vmm == None
    ensures Leads(h, h') && OnlySandbox(h, h', s) && h'.devices == h.devices
    ensures TearsAt(Sb(h', s), None, Dropped) && Sb(h', s).vmm == None
  {
    h' := First(h, Tear(s, EndPrivate(true)));
    h' := Next(h, h', Tear(s, DropLease(true)));
  }

  /** Before anything is removed the record says that no lease is held, so a delete that dies here blocks no prune. */
  lemma ReachRecorded(h: Host, s: SandboxId, lease: Option<Key>) returns (h': Host)
    requires TearsAt(Sb(h, s), lease, Freeing({})) && Sb(h, s).vmm == None
    ensures Leads(h, h') && OnlySandbox(h, h', s) && h'.devices == h.devices
    ensures TearsAt(Sb(h', s), None, Removing) && Sb(h', s).vmm == None && (Sb(h', s).home ==> Sb(h', s).file == Lease(None))
  {
    h' := ReachDropped(h, s, lease);
    h' := Next(h, h', Tear(s, SaveFinal(true)));
  }

  lemma ReachRemoved(h: Host, s: SandboxId, lease: Option<Key>) returns (h': Host)
    requires TearsAt(Sb(h, s), lease, Freeing({})) && Sb(h, s).vmm == None
    ensures Leads(h, h') && OnlySandbox(h, h', s) && h'.devices == h.devices
    ensures Sb(h', s) == NEW_SANDBOX
  {
    h' := ReachRecorded(h, s, lease);
    h' := Next(h, h', Tear(s, RemoveHome));
  }

  /**
   releaseSandbox and removeSandboxDirs leave nothing of the sandbox: no VMM, home, record or alias, and of
   its devices none but a private snapfiles device beside a lease. Nothing shared is touched.
   */
  lemma ReachTornDown(h: Host, s: SandboxId) returns (h': Host)
    requires Sb(h, s).op.Tearing? && TearsAt(Sb(h, s), Sb(h, s).op.lease, Begin)
    requires Sb(h, s).alias.Some? && Sb(h, s).op.lease.Some? ==> Sb(h, s).op.lease == Sb(h, s).alias
    requires Sb(h, s).op.mountPoint.Some? ==> Sb(h, s).op.lease.Some?
    ensures Leads(h, h') && OnlySandbox(h, h', s) && Sb(h', s) == NEW_SANDBOX
    ensures h'.devices == h.devices - PrivateIds(h, s, LeaseOf(Sb(h, s)).None?)
  {
    var lease := LeaseOf(Sb(h, s));
    var stopped := ReachStopped(h, s);
    assert PrivateIds(stopped, s, lease.None?) == PrivateIds(h, s, lease.None?);
    var freeing := ReachFreeing(stopped, s, lease);
    Chain(h, stopped, freeing);
    var freed := ReachAllFreed(freeing, s, lease, PrivateIds(h, s, lease.None?));
    Chain(h, freeing, freed);
    h' := ReachRemoved(freed, s, lease);
    Chain(h, freed, h');
  }

  /** runDelete of any sandbox nobody works on whose alias and record agree. */
  lemma ReachDeleted(h: Host, s: SandboxId) returns (h': Host)
    requires var x := Sb(h, s); x.op.Idle? && (x.alias.Some? && x.file.Lease? && x.file.key.Some? ==> x.file.key == x.alias)
    ensures Leads(h, h') && OnlySandbox(h, h', s) && Sb(h', s) == NEW_SANDBOX
    ensures var x := Sb(h, s);
            h'.devices == h.devices - PrivateIds(h, s, x.alias.None? && !(x.file.Lease? && x.file.key.Some?))
  {
    var started := First(h, Tear(s, StartDelete));
    forall snapfiles ensures PrivateIds(started, s, snapfiles) == PrivateIds(h, s, snapfiles) {}
    h' := ReachTornDown(started, s);
    Chain(h, started, h');
  }

  /** A create that fails in acquireSharedSnapfiles, at any step: the key is unlocked as it was, the sandbox removed. */
  lemma ReachAborted(h: Host, s: SandboxId, leaseSet: bool) returns (h': Host)
    requires Sb(h, s).op.Acquiring? && Sb(h, s).alias in {None, Some(Sb(h, s).op.key)}
    ensures Leads(h, h') && Only(h, h', s, Sb(h, s).op.key) && h'.inFlight == h.inFlight && Sb(h', s) == NEW_SANDBOX
    ensures Sh(h', Sb(h, s).op.key) == Sh(h, Sb(h, s).op.key).(lock := Free)
    ensures h.devices.Keys - PrivateIds(h, s, true) <= h'.devices.Keys <= h.devices.Keys - PrivateIds(h, s, false)
  {
    var aborted := First(h, Acquire(s, Abort(leaseSet)));
    forall snapfiles ensures PrivateIds(aborted, s, snapfiles) == PrivateIds(h, s, snapfiles) {}
    h' := ReachTornDown(aborted, s);
    Chain(h, aborted, h');
  }

  /** A create that fails before it, or after it with or without a VMM: the shared disk stays mounted and recorded. */
  lemma ReachFailed(h: Host, s: SandboxId) returns (h': Host)
    requires var x := Sb(h, s); x.op.Creating? || ((x.op.Ready? || x.op.Launched?) && x.alias in {None, Some(x.op.key)})
    ensures Leads(h, h') && OnlySandbox(h, h', s) && Sb(h', s) == NEW_SANDBOX
    ensures h'.devices == h.devices - PrivateIds(h, s, Sb(h, s).op.Creating? && Sb(h, s).alias.None?)
  {
    var failed := First(h, Create(s, Fail));
    forall snapfiles ensures PrivateIds(failed, s, snapfiles) == PrivateIds(h, s, snapfiles) {}
    h' := ReachTornDown(failed, s);
    Chain(h, failed, h');
  }

  // ---------------------------------------------------------------- prune

  /** Only this key changed. */
  ghost predicate OnlyKey(h: Host, h': Host, k: Key) {
    h'.sandboxes == h.sandboxes && h'.inFlight == h.inFlight && forall j | j != k :: Sh(h', j) == Sh(h, j)
  }

  /** The scan passes over this sandbox: its record is readable and names no lease of the key, nor does its alias without one. */
  predicate Unleased(x: Sandbox, k: Key) {
    (x.file.Lease? && x.file.key != Some(k)) || (x.file.Missing? && x.alias != Some(k))
  }

  lemma ReachPassed(h: Host, k: Key, todo: set<SandboxId>, s: SandboxId) returns (h': Host)
    requires Sh(h, k).lock == ByPrune(Scan(todo)) && s in todo && Unleased(Sb(h, s), k)
    ensures Leads(h, h') && OnlyKey(h, h', k) && h'.devices == h.devices
    ensures Sh(h', k) == Sh(h, k).(lock := ByPrune(Scan(todo - {s})))
  {
    h' := First(h, Prune(k, ReadState(s)));
    if Sb(h, s).file.Missing? { h' := Next(h, h', Prune(k, ReadLink)); }
  }

  lemma {:induction false} ReachScanned(h: Host, k: Key, todo: set<SandboxId>) returns (h': Host)
    requires Sh(h, k).lock == ByPrune(Scan(todo)) && forall s <- todo :: Unleased(Sb(h, s), k)
    ensures Leads(h, h') && OnlyKey(h, h', k) && h'.devices == h.devices
    ensures Sh(h', k) == Sh(h, k).(lock := ByPrune(Scanned))
    decreases |todo|
  {
    if todo == {} {
      h' := First(h, Prune(k, EndScan));
    } else {
      var s :| s in todo;
      var mid := ReachPassed(h, k, todo, s);
      assert todo == {s} + (todo - {s});
      h' := ReachScanned(mid, k, todo - {s});
      Chain(h, mid, h');
    }
  }

  lemma {:induction false} ReachOldReleased(h: Host, k: Key, ids: set<DevId>) returns (h': Host)
    requires Sh(h, k).lock == ByPrune(PReleasing(ids, false))
    ensures Leads(h, h') && OnlyKey(h, h', k) && h'.devices == h.devices - ids
    ensures Sh(h', k) == Sh(h, k).(lock := ByPrune(Emptied))
    decreases |ids|
  {
    if ids == {} {
      h' := First(h, Prune(k, EndRelease));
    } else {
      var id :| id in ids;
      var mid := First(h, Prune(k, ReleaseOld(id, Ok)));
      assert ids == {id} + (ids - {id});
      h' := ReachOldReleased(mid, k, ids - {id});
      Chain(h, mid, h');
    }
  }

  /** A record that names no device leaves nothing to release. */
  function ToRelease(h: Host, k: Key): set<DevId> {
    if Sh(h, k).record.NoDevice? then {} else ListIds(h, k)
  }

  /** There is a record, and not one of an Add that can still land. */
  predicate Settled(h: Host, k: Key) {
    match Sh(h, k).record
    case NoRecord => false
    case NoDevice => true
    case AddIssued => k !in h.inFlight
    case Attached(_) => true
  }

  lemma ReachEmptied(h: Host, k: Key) returns (h': Host)
    requires Sh(h, k).lock == ByPrune(Scanned) && Settled(h, k)
    ensures Leads(h, h') && OnlyKey(h, h', k) && h'.devices == h.devices - ToRelease(h, k)
    ensures Sh(h', k) == Shared(Sh(h, k).record, None, ByPrune(Emptied))
  {
    var mid := First(h, Prune(k, Unmount));
    mid := Next(h, mid, Prune(k, FenceOld));
    if Sh(h, k).record.NoDevice? { return mid; }
    assert ListIds(mid, k) == ListIds(h, k);
    mid := Next(h, mid, Prune(k, ListOld));
    h' := ReachOldReleased(mid, k, ListIds(h, k));
    Chain(h, mid, h');
  }

  lemma ReachIdle(h: Host, k: Key) returns (h': Host)
    requires Sh(h, k).lock.Free? && forall s <- SandboxIds(h) :: Unleased(Sb(h, s), k)
    ensures Leads(h, h') && OnlyKey(h, h', k) && h'.devices == h.devices
    ensures Sh(h', k) == Sh(h, k).(lock := ByPrune(Scanned))
  {
    var listed := First(h, Prune(k, PruneLock));
    assert SandboxIds(listed) == SandboxIds(h);
    listed := Next(h, listed, Prune(k, ListHomes));
    h' := ReachScanned(listed, k, SandboxIds(h));
    Chain(h, listed, h');
  }

  lemma ReachKeyRemoved(h: Host, k: Key) returns (h': Host)
    requires Sh(h, k).lock == ByPrune(Emptied)
    ensures Leads(h, h') && OnlyKey(h, h', k) && h'.devices == h.devices
    ensures Sh(h', k) == Shared(NoRecord, Sh(h, k).mount, Free)
  {
    h' := First(h, Prune(k, RemoveKey(true)));
  }

  /** A prune evicts every key that no sandbox on the node leases and whose Add is not pending: its mount, devices and record go. */
  lemma ReachEvicted(h: Host, k: Key) returns (h': Host)
    requires Sh(h, k).lock.Free? && Settled(h, k) && forall s <- SandboxIds(h) :: Unleased(Sb(h, s), k)
    ensures Leads(h, h') && OnlyKey(h, h', k) && h'.devices == h.devices - ToRelease(h, k)
    ensures Sh(h', k) == NEW_SHARED
  {
    var idle := ReachIdle(h, k);
    assert ListIds(idle, k) == ListIds(h, k);
    var emptied := ReachEmptied(idle, k);
    Chain(h, idle, emptied);
    h' := ReachKeyRemoved(emptied, k);
    Chain(h, emptied, h');
  }

  /** The whole life of one key on a new host: a VMM runs on it, its sandbox is deleted, and nothing is left after the prune. */
  lemma WholeLife(s: SandboxId, k: Key, id: DevId) returns (up: Host, deleted: Host, evicted: Host)
    ensures Reachable(up) && up.devices == map[id := Device(SharedConfig(k), false)] && Sb(up, s) == Created(k, false)
    ensures Leads(up, deleted) && deleted.devices == up.devices && Sb(deleted, s) == NEW_SANDBOX
    ensures Leads(deleted, evicted) && evicted.devices == map[] && Sh(evicted, k) == NEW_SHARED
  {
    up := ReachVmm(EMPTY_HOST, s, k, id, false);
    deleted := ReachDeleted(up, s);
    assert PrivateIds(up, s, false) == {};
    forall t ensures Sb(deleted, t) == NEW_SANDBOX { assert t == s || Sb(deleted, t) == Sb(EMPTY_HOST, t); }
    assert ListIds(deleted, k) == {id};
    evicted := ReachEvicted(deleted, k);
  }
}
