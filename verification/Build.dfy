/** runBuild: the order in which resources are taken and pushed, failing at any point. */
module Build {
  import opened Ublkd
  import opened DeviceAttachment
  import opened Rollback

  /** Where a build is made to fail. */
  datatype Fault =
    | NoFault | Probing | Preparing | InjectingDir | InjectingInit | Booting | FillingSnapfiles | Sealing | Publishing

  /** The fault is in a step the build takes: a directory is injected only on request. */
  predicate Hits(fault: Fault, inject: bool) {
    !fault.NoFault? && (fault.InjectingDir? ==> inject)
  }

  class Build {
    const host: Host
    const ublkd: Daemon
    const undo: RollbackStack
    const staging: Path
    const work: Path
    const keepWorkDir: bool

    /** Every mount, VMM and device of the build is on the rollback stack, above the two directories it needs. */
    ghost predicate Guarded()
      reads this, host, ublkd, undo, Devices(undo.steps)
    {
      && staging != work && staging in host.dirs && work in host.dirs
      && Tracked(undo.steps, ublkd) && ublkd.OwnOnly()
      && (ublkd.calm ==> forall a <- Devices(undo.steps) :: !a.addOutcomeUnknown)
      && |undo.steps| >= 2
      && undo.steps[0] == RemoveDir(staging, false) && undo.steps[1] == RemoveDir(work, keepWorkDir)
      && (forall i | 2 <= i < |undo.steps| :: !undo.steps[i].RemoveDir?)
      && host.mounts <= MountsOf(undo.steps)
      && host.vmms <= VmmsOf(undo.steps)
      && forall c <- ublkd.ours :: c in ConfigsOf(undo.steps) || (ublkd.IdsOf(c) == {} && c !in ublkd.inFlight)
    }

    ghost predicate Released()
      reads host, ublkd
    {
      && host.mounts == {} && host.vmms == {}
      && forall c <- ublkd.ours :: ublkd.IdsOf(c) == {} && c !in ublkd.inFlight
    }

    /** The backing files are gone only if nothing depends on them any more. */
    ghost predicate Safe()
      reads this, host, ublkd
    {
      staging !in host.dirs || work !in host.dirs ==> Released()
    }

    ghost function Frame(): set<object>
      reads this, undo
    {
      {host, ublkd, undo} + Devices(undo.steps)
    }

    constructor (ours: set<Config>, calm: bool, staging: Path, work: Path, keepWorkDir: bool)
      requires staging != work
      ensures Guarded() && this.staging == staging && this.work == work && this.keepWorkDir == keepWorkDir
      ensures ublkd.ours == ours && ublkd.calm == calm && fresh(Frame())
      ensures undo.steps == [RemoveDir(staging, false), RemoveDir(work, keepWorkDir)]
    {
      host := new Host();
      ublkd := new Daemon(ours, calm);
      undo := new RollbackStack();
      this.staging, this.work, this.keepWorkDir := staging, work, keepWorkDir;
      new;
      host.dirs := {staging, work};
      undo.Push(RemoveDir(staging, false));
      undo.Push(RemoveDir(work, keepWorkDir));
      assert ConfigsOf(undo.steps) == {} && Devices(undo.steps) == {};
    }

    /** trackDevice, then add. */
    method Attach(c: Config) returns (a: DeviceAttachment, ok: bool)
      requires Guarded() && c in ublkd.ours && c !in ConfigsOf(undo.steps)
      modifies undo, ublkd`devices, ublkd`inFlight
      ensures Guarded() && fresh(a) && a.config == c && undo.steps == old(undo.steps) + [DetachDevice(a)]
      ensures Devices(undo.steps) == Devices(old(undo.steps)) + {a}
      ensures ConfigsOf(undo.steps) == ConfigsOf(old(undo.steps)) + {c}
      ensures a.attached && (ublkd.calm ==> ok)
    {
      a := new DeviceAttachment(c);
      undo.Push(DetachDevice(a));
      SnocUndo(old(undo.steps), DetachDevice(a));
      assert [DetachDevice(a)][0] == DetachDevice(a);
      ok := a.Add(ublkd);
    }

    /** A device already on the stack is detached, or attached again after a successful detach. */
    method Switch(a: DeviceAttachment) returns (ok: bool)
      requires Guarded() && a in Devices(undo.steps)
      modifies a, ublkd
      ensures Guarded() && undo.steps == old(undo.steps)
      ensures ok ==> a.attached == !old(a.attached)
      ensures ublkd.calm ==> ok
    {
      if a.attached {
        ok := a.Detach(ublkd);
      } else {
        ok := a.Add(ublkd);
      }
    }

    /** Time passes at the daemon. */
    method Wait()
      requires Guarded()
      modifies ublkd`devices, ublkd`inFlight
      ensures Guarded()
    {
      ublkd.Drift();
    }

    /** A mount or VMM has come to exist and is pushed at once. */
    method Hold(step: Undo)
      requires Guarded() && (step.UnmountFs? || step.StopVmm?)
      modifies host`mounts, host`vmms, undo
      ensures Guarded() && undo.steps == old(undo.steps) + [step]
      ensures host.mounts == old(host.mounts) + MountsOf([step]) && host.vmms == old(host.vmms) + VmmsOf([step])
      ensures Devices(undo.steps) == Devices(old(undo.steps)) && ConfigsOf(undo.steps) == ConfigsOf(old(undo.steps))
    {
      SnocUndo(undo.steps, step);
      assert [step][0] == step;
      assert Devices([step]) == {} && ConfigsOf([step]) == {};
      host.mounts, host.vmms := host.mounts + MountsOf([step]), host.vmms + VmmsOf([step]);
      undo.Push(step);
    }

    /** The stage lets go of the mount or VMM it pushed; its undo stays on the stack and will find nothing. */
    method LetGo(step: Undo)
      requires Guarded()
      modifies host`mounts, host`vmms
      ensures Guarded()
      ensures host.mounts == old(host.mounts) - MountsOf([step]) && host.vmms == old(host.vmms) - VmmsOf([step])
    {
      host.mounts, host.vmms := host.mounts - MountsOf([step]), host.vmms - VmmsOf([step]);
    }

    /** A stage that mounts a filesystem or boots the VM; it releases it before success, and a failure leaves it. */
    method HoldDuring(step: Undo, fails: bool) returns (ok: bool)
      requires Guarded() && (step.UnmountFs? || step.StopVmm?)
      modifies host`mounts, host`vmms, undo, ublkd`devices, ublkd`inFlight
      ensures Guarded() && Devices(undo.steps) == Devices(old(undo.steps)) && ConfigsOf(undo.steps) == ConfigsOf(old(undo.steps))
      ensures ok && old(host.mounts) == {} && old(host.vmms) == {} ==> host.mounts == {} && host.vmms == {}
      ensures ublkd.calm ==> (ok <==> !fails)
      ensures ublkd.calm && fails ==>
                host.mounts == old(host.mounts) + MountsOf([step]) && host.vmms == old(host.vmms) + VmmsOf([step])
    {
      Wait();
      var started := Try(ublkd.calm);
      if !started { return false; }
      Hold(step);
      var released := Try(ublkd.calm, fails);
      var rest := Try(ublkd.calm);
      if released { LetGo(step); }
      ok := released && rest;
    }

    /** The deferred rollback: whatever it could not release keeps both directories; on a calm host nothing is kept. */
    method Rollback() returns (ok: bool)
      requires Guarded()
      modifies Frame()
      ensures Safe() && ublkd.OwnOnly()
      ensures ok ==> Released() && staging !in host.dirs && (work in host.dirs <==> keepWorkDir)
      ensures ublkd.calm ==> ok
    {
      var steps := undo.steps;
      NothingFails();
      assert DirsOf(steps) == {staging} + if keepWorkDir then {} else {work} by {
        assert steps[0].path == staging && steps[1].path == work;
      }
      var kept;
      ok, kept := undo.Run(host, ublkd, {});
      assert ok ==> steps[|kept|..] == steps;
      assert ublkd.OwnOnly() by { TrackedAreOurs(steps, ublkd); }
      if |kept| <= 1 {
        var rest := steps[|kept|..];
        assert MountsOf(rest) == MountsOf(steps) by { SuffixOf(steps, |kept|); }
        assert VmmsOf(rest) == VmmsOf(steps) by { SuffixOf(steps, |kept|); }
        forall c <- ublkd.ours ensures ublkd.IdsOf(c) == {} && c !in ublkd.inFlight {
          if c in ConfigsOf(steps) {
            var i :| 0 <= i < |steps| && steps[i].DetachDevice? && steps[i].device.config == c;
            assert i >= 2 && rest[i - |kept|] == steps[i];
            assert steps[i].device in Devices(rest) && steps[i].device in Devices(steps);
            assert !steps[i].device.attached && steps[i].device.Valid(ublkd);
          } else {
            assert Settles(old(ublkd.IdsOf(c)), c in old(ublkd.inFlight), ublkd.IdsOf(c), c in ublkd.inFlight);
          }
        }
      } else {
        assert forall i | 0 <= i < |steps[|kept|..]| :: steps[|kept|..][i] == steps[|kept| + i];
        assert DirsOf(steps[|kept|..]) == {};
      }
    }

    lemma NothingFails()
      requires Guarded()
      ensures ublkd.calm ==> Failing(undo.steps, {}, ublkd) == {}
    {
      assert forall i | 0 <= i < |undo.steps| && undo.steps[i].DetachDevice? :: undo.steps[i].device in Devices(undo.steps);
    }

    static lemma TrackedAreOurs(steps: seq<Undo>, ublkd: Daemon)
      requires Tracked(steps, ublkd)
      ensures ConfigsOf(steps) <= ublkd.ours
    {
      assert forall i | 0 <= i < |steps| && steps[i].DetachDevice? :: steps[i].device in Devices(steps);
    }

    static lemma NoDevices(steps: seq<Undo>)
      requires ConfigsOf(steps) == {}
      ensures Devices(steps) == {}
    {
      assert forall i | 0 <= i < |steps| && steps[i].DetachDevice? :: steps[i].device.config in ConfigsOf(steps);
    }

    static lemma SuffixOf(steps: seq<Undo>, k: nat)
      requires k <= 2 <= |steps| && steps[0].RemoveDir? && steps[1].RemoveDir?
      ensures MountsOf(steps[k..]) == MountsOf(steps) && VmmsOf(steps[k..]) == VmmsOf(steps)
    {
      assert forall i | k <= i < |steps| :: steps[k..][i - k] == steps[i];
    }

    /** probeSourceVirtualSize: attached, measured, detached. */
    method Probe(probe: Config, fails: bool) returns (a: DeviceAttachment, ok: bool)
      requires Guarded() && probe in ublkd.ours && ConfigsOf(undo.steps) == {}
      modifies undo, ublkd
      ensures Guarded() && fresh(a)
      ensures Devices(undo.steps) == Devices(old(undo.steps)) + {a} && ConfigsOf(undo.steps) == {probe}
      ensures ok ==> !a.attached
      ensures ublkd.calm ==> (ok <==> !fails)
    {
      a, ok := Attach(probe);
      if !ok { return; }
      ok := Try(ublkd.calm, fails);         // measuring
      if !ok { return; }
      ok := Switch(a);
    }

    /** probeSourceVirtualSize and prepareBuildRootfs, as far as ownership goes: the probe is gone, the rootfs attached. */
    method Prepare(probe: Config, rootfs: Config, fault: Fault) returns (r: DeviceAttachment, ok: bool)
      requires Guarded() && {probe, rootfs} <= ublkd.ours && probe != rootfs && ConfigsOf(undo.steps) == {}
      requires host.mounts == {} && host.vmms == {}
      modifies undo, ublkd
      ensures Guarded() && fresh(Devices(undo.steps) - Devices(old(undo.steps)))
      ensures ok ==> ConfigsOf(undo.steps) == {probe, rootfs} && r in Devices(undo.steps) && r.config == rootfs && r.attached
      ensures ok ==> forall a <- Devices(undo.steps) :: a == r || !a.attached
      ensures ublkd.calm ==> (ok <==> !fault.Probing? && !fault.Preparing?)
    {
      var a;
      NoDevices(undo.steps);
      a, ok := Probe(probe, fault.Probing?);
      r := a;
      if !ok { return; }
      r, ok := Attach(rootfs);
      assert Devices(undo.steps) == {a, r};
      if !ok { return; }
      ok := Try(ublkd.calm, fault.Preparing?);  // repairing, measuring and resizing
      if !ok { return; }
      var resize := *;
      if resize {
        ok := Switch(r);
        if !ok { return; }
        ok := Switch(r);
      }
    }

    /** injectDirectory, injectInitScript and coldBootAndSnapshot: nothing of them outlives the stage. */
    method InjectAndBoot(inject: bool, fault: Fault) returns (ok: bool)
      requires Guarded() && host.mounts == {} && host.vmms == {}
      modifies host`mounts, host`vmms, undo, ublkd`devices, ublkd`inFlight
      ensures Guarded() && Devices(undo.steps) == Devices(old(undo.steps)) && ConfigsOf(undo.steps) == ConfigsOf(old(undo.steps))
      ensures ok ==> host.mounts == {} && host.vmms == {}
      ensures ublkd.calm ==> (ok <==> !(inject && fault.InjectingDir?) && !fault.InjectingInit? && !fault.Booting?)
    {
      if inject {
        ok := HoldDuring(UnmountFs("mnt-inject"), fault.InjectingDir?);
        if !ok { return; }
      }
      ok := HoldDuring(UnmountFs("mnt-rootfs"), fault.InjectingInit?);
      if !ok { return; }
      ok := HoldDuring(StopVmm(0), fault.Booting?);
    }

    /** captureSnapfiles: the blank disk is attached, mounted, filled, unmounted and detached. */
    method Capture(snapfiles: Config, fails: bool) returns (ok: bool)
      requires Guarded() && snapfiles in ublkd.ours && snapfiles !in ConfigsOf(undo.steps)
      requires host.mounts == {} && host.vmms == {}
      modifies undo, ublkd, host`mounts, host`vmms
      ensures Guarded() && fresh(Devices(undo.steps) - Devices(old(undo.steps)))
      ensures Devices(old(undo.steps)) <= Devices(undo.steps)
      ensures ok ==> ConfigsOf(undo.steps) == ConfigsOf(old(undo.steps)) + {snapfiles}
      ensures ok ==> forall a <- Devices(undo.steps) - Devices(old(undo.steps)) :: !a.attached
      ensures ok ==> host.mounts == {} && host.vmms == {}
      ensures ublkd.calm ==> (ok <==> !fails)
    {
      var s;
      s, ok := Attach(snapfiles);
      if !ok { return; }
      ok := HoldDuring(UnmountFs("mnt-snapfiles"), fails);
      if !ok { return; }
      ok := Switch(s);
    }

    /** Once every tracked device is detached and every config is tracked, nothing of the build is left. */
    lemma AllReleased()
      requires Guarded() && ublkd.ours <= ConfigsOf(undo.steps) && host.mounts == {} && host.vmms == {}
      requires forall a <- Devices(undo.steps) :: !a.attached
      ensures Released()
    {
      forall c <- ublkd.ours ensures ublkd.IdsOf(c) == {} && c !in ublkd.inFlight {
        var i :| 0 <= i < |undo.steps| && undo.steps[i].DetachDevice? && undo.steps[i].device.config == c;
        assert undo.steps[i].device in Devices(undo.steps);
        assert undo.steps[i].device.Valid(ublkd);
      }
    }

    /** rootfs.detach before its upper is sealed: the last resource of the build goes. */
    method DetachLast(r: DeviceAttachment, fails: bool) returns (ok: bool)
      requires Guarded() && ublkd.ours <= ConfigsOf(undo.steps) && host.mounts == {} && host.vmms == {}
      requires r in Devices(undo.steps) && r.attached && forall a <- Devices(undo.steps) :: a == r || !a.attached
      modifies r, ublkd
      ensures Guarded() && (ok ==> Released())
      ensures ublkd.calm ==> (ok <==> !fails)
    {
      ok := Try(ublkd.calm, fails);
      if !ok { return; }
      ok := Switch(r);
      if ok { AllReleased(); }
    }

    /** The stages after the snapshot: the snapfiles disk comes and goes, then the rootfs device goes. */
    method CaptureAndSeal(r: DeviceAttachment, snapfiles: Config, fault: Fault) returns (ok: bool)
      requires Guarded() && snapfiles in ublkd.ours && snapfiles !in ConfigsOf(undo.steps)
      requires ublkd.ours == ConfigsOf(undo.steps) + {snapfiles} && host.mounts == {} && host.vmms == {}
      requires r in Devices(undo.steps) && r.attached && forall a <- Devices(undo.steps) :: a == r || !a.attached
      modifies undo, ublkd, host`mounts, host`vmms, r
      ensures Guarded() && fresh(Devices(undo.steps) - Devices(old(undo.steps)))
      ensures ok ==> Released()
      ensures ublkd.calm ==> (ok <==> !fault.FillingSnapfiles? && !fault.Sealing?)
    {
      ok := Capture(snapfiles, fault.FillingSnapfiles?);
      if !ok { return; }
      ok := DetachLast(r, fault.Sealing?);
    }

    /** The pipeline up to publication. Any stage may fail; success leaves no device, mount or VMM behind. */
    method Stages(probe: Config, rootfs: Config, snapfiles: Config, inject: bool, fault: Fault) returns (ok: bool)
      requires Guarded() && ublkd.ours == {probe, rootfs, snapfiles} && probe != rootfs && snapfiles !in {probe, rootfs}
      requires ConfigsOf(undo.steps) == {} && host.mounts == {} && host.vmms == {}
      modifies undo, ublkd, host`mounts, host`vmms
      ensures Guarded() && fresh(Devices(undo.steps) - Devices(old(undo.steps)))
      ensures ok ==> Released()
      ensures ublkd.calm ==> (ok <==> fault.Publishing? || !Hits(fault, inject))
    {
      var r;
      r, ok := BootFromRootfs(probe, rootfs, inject, fault);
      if !ok { return; }
      ok := CaptureAndSeal(r, snapfiles, fault);
    }

    /** The stages up to the snapshot: only the rootfs device is attached then. */
    method BootFromRootfs(probe: Config, rootfs: Config, inject: bool, fault: Fault) returns (r: DeviceAttachment, ok: bool)
      requires Guarded() && {probe, rootfs} <= ublkd.ours && probe != rootfs
      requires ConfigsOf(undo.steps) == {} && host.mounts == {} && host.vmms == {}
      modifies undo, ublkd, host`mounts, host`vmms
      ensures Guarded() && fresh(Devices(undo.steps) - Devices(old(undo.steps)))
      ensures ok ==> host.mounts == {} && host.vmms == {} && ConfigsOf(undo.steps) == {probe, rootfs}
      ensures ok ==> r in Devices(undo.steps) && r.attached && forall a <- Devices(undo.steps) :: a == r || !a.attached
      ensures ublkd.calm ==>
                (ok <==> !Hits(fault, inject) || fault.FillingSnapfiles? || fault.Sealing? || fault.Publishing?)
    {
      r, ok := Prepare(probe, rootfs, fault);
      if !ok { return; }
      ok := InjectAndBoot(inject, fault);
    }

    /** publishArtifactLayout renames the staging directory; then the rollback is disarmed and the scratch removed. */
    method Publish(final: Path)
      requires Guarded() && Released() && final != staging && final != work
      modifies undo, host`dirs
      ensures Safe() && Released() && final in host.dirs && staging !in host.dirs && undo.steps == []
      ensures keepWorkDir ==> work in host.dirs
      ensures ublkd.calm && !keepWorkDir ==> work !in host.dirs
    {
      host.dirs := host.dirs - {staging} + {final};
      undo.Disarm();
      var removed := Try(ublkd.calm);
      if !keepWorkDir && removed { host.dirs := host.dirs - {work}; }
    }
  }

  /**
   runBuild: wherever it fails and whatever the daemon answers, the staging and work directories are
   gone afterwards only if no device, in-flight Add, mount or VMM of the build remains; success
   publishes and releases everything. Every device it ever took down was one of its own three configs.
   On a calm host it succeeds exactly unless `fault` hits one of its steps, and either way it leaves
   nothing: no device, mount or VMM, no staging directory, and no work directory unless it is to be kept.
   */
  method RunBuild(probe: Config, rootfs: Config, snapfiles: Config, staging: Path, work: Path, final: Path, keep: bool, inject: bool,
                  calm: bool, fault: Fault)
    returns (b: Build, ok: bool)
    requires probe != rootfs && snapfiles !in {probe, rootfs}
    requires staging != work && final != staging && final != work
    ensures b.Safe() && b.staging == staging && b.work == work
    ensures ok ==> b.Released() && final in b.host.dirs
    ensures b.ublkd.ours == {probe, rootfs, snapfiles} && b.ublkd.OwnOnly()
    ensures calm ==> (ok <==> !Hits(fault, inject))
    ensures calm ==> b.Released() && staging !in b.host.dirs && (work in b.host.dirs <==> keep)
  {
    b := new Build({probe, rootfs, snapfiles}, calm, staging, work, keep);
    ok := b.Stages(probe, rootfs, snapfiles, inject, fault);
    var published := Try(calm, fault.Publishing?);
    ok := ok && published;
    if ok {
      b.Publish(final);
    } else {
      var clean := b.Rollback();
    }
  }
}
