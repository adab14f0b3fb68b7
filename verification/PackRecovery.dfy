/** The checkpoint pack, its phase marker, and recoverPack after any crash or failed rollback. */
module PackRecovery {
  import opened Ublkd
  import opened DeviceRelease
  import opened DeviceAttachment

  datatype Phase = Prepared | Adding | Attached | Released

  /** .pack-resources-active: absent, undecodable or with an unknown phase, or naming a work directory by its config. */
  datatype Marker = NoMarker | Corrupt | Active(work: Config, phase: Phase)

  /** Where a pack is made to fail: packing the rootfs, writing the marker of a phase, or filling the attached disk. */
  datatype Fault = NoFault | Packing | Writing(phase: Phase) | Filling

  /** One bundle; its lock makes packs and recoveries of it sequential. */
  class Bundle {
    const ublkd: Daemon
    var marker: Marker
    var works: set<Config>    // work directories that exist
    var mounts: set<Config>   // work directories with mnt-snapfiles mounted
    ghost var asked: set<Config>   // configs an Add was ever sent for

    constructor (ublkd: Daemon)
      ensures this.ublkd == ublkd && marker == NoMarker && works == {} && mounts == {} && asked == {}
    {
      this.ublkd := ublkd;
      marker, works, mounts, asked := NoMarker, {}, {}, {};
    }

    ghost predicate Gone(c: Config)
      reads this, ublkd
    {
      ublkd.IdsOf(c) == {} && c !in ublkd.inFlight && c !in mounts
    }

    /** What the phase on disk promises about the work directory it names. */
    ghost predicate PhaseOk(c: Config, phase: Phase)
      reads this, ublkd
    {
      && (phase.Prepared? ==> c !in asked)
      && (phase.Prepared? || phase.Released? ==> Gone(c))
      && (c in ublkd.inFlight ==> phase.Adding?)
      && (c in mounts ==> phase.Attached?)
    }

    /**
     Holds at every point where a process can die: whatever is mounted, attached or in flight has its
     backing files, and the marker on disk names it with a phase that tells recovery what to do.
     */
    ghost predicate Recoverable()
      reads this, ublkd
    {
      && mounts <= works
      && (forall c <- ublkd.ours :: Single(ublkd.IdsOf(c), c in ublkd.inFlight))
      && (forall c <- ublkd.ours :: Gone(c) || (c in works && marker.Active? && marker.work == c))
      && (marker.Active? ==> marker.work in ublkd.ours && PhaseOk(marker.work, marker.phase))
    }

    /** On a calm host recovery gets as far as the work directory, unless a pending Add outlasts its polls. */
    ghost predicate Reaches(polls: nat)
      reads this, ublkd
    {
      && marker.Active? && marker.work in works
      && (marker.phase.Adding? ==> polls > 0 && marker.work !in ublkd.inFlight)
    }

    /** The steps before the work directory goes: unmount, fence a possible Add, release by config. */
    method ReleaseWork(polls: nat) returns (ok: bool)
      requires Recoverable() && marker.Active? && marker.work in works
      modifies this`mounts, ublkd
      ensures Recoverable() && (ok ==> Gone(marker.work))
      ensures ublkd.calm && old(Reaches(polls)) ==> ok
    {
      var c := marker.work;
      ok := Try(ublkd.calm);
      if !ok { return; }
      mounts := mounts - {c};
      if marker.phase.Adding? {
        ok := FenceAdd(ublkd, c, polls);
        if !ok { return; }
      }
      var matches;
      matches, ok := ReleaseOwnedDevicesByConfig(ublkd, c);
    }

    /**
     recoverPack. It deletes the work directory only once its mount is gone, nothing is attached under its
     config and a possible Add has been fenced: otherwise Recoverable would not survive. A marker whose work
     directory is already gone is retired only in phase `released`, and there on a calm host always. `dies`
     stops the process just before it removes the marker.
     */
    method RecoverPack(polls: nat, dies: bool) returns (ok: bool)
      requires Recoverable()
      modifies this, ublkd
      ensures Recoverable() && works <= old(works) && asked == old(asked)
      ensures ok ==> marker == NoMarker && forall c <- ublkd.ours :: Gone(c)
      ensures !ok ==> marker == old(marker)
      ensures old(marker.NoMarker?) ==> ok && works == old(works)
      ensures old(marker.Active? && marker.work !in works && !marker.phase.Released?) ==> !ok
      ensures ublkd.calm && old(marker.Active? && marker.work !in works) ==> (ok <==> old(marker.phase.Released?) && !dies)
      ensures ublkd.calm && old(Reaches(polls)) ==> works == old(works) - {old(marker).work} && (ok <==> !dies)
    {
      if marker.NoMarker? { return true; }
      if marker.Corrupt? { return false; }
      var c := marker.work;
      ok := Try(ublkd.calm);                // the work path lies in the pack work root
      if !ok { return; }
      if c in works {
        ok := ReleaseWork(polls);
        if !ok { return; }
        ok := Try(ublkd.calm);
        if !ok { return; }
        works := works - {c};
      } else if !marker.phase.Released? {
        return false;
      }
      ok := Try(ublkd.calm);
      if dies || !ok { return false; }
      marker := NoMarker;
    }

    ghost predicate Owns(a: DeviceAttachment, c: Config)
      reads this, ublkd, a
    {
      a.config == c && a.Valid(ublkd)
    }

    /** writePackResources: the marker is replaced atomically, or the write fails. */
    method Mark(c: Config, phase: Phase, fails: bool := false) returns (ok: bool)
      modifies this`marker
      ensures marker == if ok then Active(c, phase) else old(marker)
      ensures ublkd.calm ==> (ok <==> !fails)
    {
      ok := Try(ublkd.calm, fails);
      if ok { marker := Active(c, phase); }
    }

    /**
     captureSnapfiles with its progress markers, stopping at any point by an error or a crash. Each
     marker is written before the request it announces, so the state stays recoverable throughout.
     */
    method Capture(c: Config, a: DeviceAttachment, fault: Fault) returns (ok: bool)
      requires Recoverable() && c in works && marker == Active(c, Prepared) && Owns(a, c) && !a.attached
      requires !a.addOutcomeUnknown
      modifies this`marker, this`mounts, this`asked, ublkd, a
      ensures Recoverable() && Owns(a, c) && marker.Active? && marker.work == c
      ensures ok ==> Gone(c) && marker.phase.Released?
      ensures asked <= old(asked) + {c} && (a.attached ==> c in asked)
      ensures ublkd.calm ==> !a.addOutcomeUnknown && (ok <==> fault in {NoFault, Packing, Writing(Prepared)})
    {
      ok := Mark(c, Adding, fault == Writing(Adding));
      if !ok { return; }
      asked := asked + {c};
      ok := a.Add(ublkd);
      if !ok { return; }
      ok := Mark(c, Attached, fault == Writing(Attached));
      if !ok { return; }
      ok := Fill(c, a, fault);
    }

    /** The attached disk is formatted, mounted, filled, unmounted and detached. */
    method Fill(c: Config, a: DeviceAttachment, fault: Fault) returns (ok: bool)
      requires Recoverable() && c in works && marker == Active(c, Attached) && Owns(a, c) && a.devID >= 0
      requires c !in ublkd.inFlight
      modifies this`marker, this`mounts, ublkd, a
      ensures Recoverable() && Owns(a, c) && marker.Active? && marker.work == c
      ensures ok ==> Gone(c) && marker.phase.Released?
      ensures a.addOutcomeUnknown ==> old(a.addOutcomeUnknown)
      ensures ublkd.calm && !old(a.addOutcomeUnknown) ==> (ok <==> fault !in {Filling, Writing(Released)})
      ensures ublkd.calm && fault.Filling? ==> c in mounts
    {
      ok := Try(ublkd.calm);                // mkfs and mount
      if !ok { return; }
      mounts := mounts + {c};
      ok := Try(ublkd.calm, fault.Filling?);  // copy and unmount
      if !ok { return; }
      mounts := mounts - {c};
      ok := a.Detach(ublkd);
      if !ok { return; }
      ok := Mark(c, Released, fault == Writing(Released));
    }

    /** The deferred rollback of a pack: unmount, detach, remove the work directory, then the marker. */
    method Rollback(c: Config, a: DeviceAttachment)
      requires Recoverable() && c in works && marker.Active? && marker.work == c && Owns(a, c)
      modifies this, ublkd, a
      ensures Recoverable() && works <= old(works) && asked == old(asked)
      ensures ublkd.calm && !old(a.Hidden(ublkd)) ==> works == old(works) - {c} && marker == NoMarker
    {
      var ok := Try(ublkd.calm);
      if !ok { return; }
      mounts := mounts - {c};
      ok := a.Detach(ublkd);
      if !ok { return; }
      ok := Try(ublkd.calm);
      if !ok { return; }
      works := works - {c};
      ok := Try(ublkd.calm);
      if ok { marker := NoMarker; }
    }

    /**
     packCheckpoint with a work directory that no earlier pack used; it may fail or die anywhere. On a calm
     host it fails only where `fault` says, and leaves neither its work directory nor a marker either way.
     */
    method PackCheckpoint(c: Config, polls: nat, fault: Fault) returns (ok: bool)
      requires Recoverable() && c in ublkd.ours && c !in works && c !in asked
      modifies this, ublkd
      ensures Recoverable() && works <= old(works) + {c} && asked <= old(asked) + {c}
      ensures ublkd.calm && old(marker.NoMarker?) ==> (ok <==> fault.NoFault?) && marker == NoMarker && works == old(works)
    {
      var dies := *;
      ok := RecoverPack(polls, dies);
      if !ok { return; }
      works := works + {c};
      ok := Try(ublkd.calm);
      if !ok { return; }                    // died before the marker: an unused directory is left
      ok := Try(ublkd.calm, fault.Packing?);  // packRootfs
      if ok { ok := Mark(c, Prepared, fault == Writing(Prepared)); }
      if !ok {
        works := works - {c};
        return;
      }
      var a := new DeviceAttachment(c);
      ok := Capture(c, a, fault);
      var lives := Try(ublkd.calm);
      if !lives { return false; }           // died
      Rollback(c, a);
    }
  }

  /** Any history of packs and recoveries of one bundle, each of which may fail or die anywhere. */
  method AnyHistory(b: Bundle, configs: seq<Config>, polls: nat, faults: seq<Fault>)
    requires b.Recoverable() && b.works == {} && b.asked == {}
    requires forall i | 0 <= i < |configs| :: configs[i] in b.ublkd.ours
    requires forall i, j | 0 <= i < j < |configs| :: configs[i] != configs[j]
    requires |faults| == |configs|
    modifies b, b.ublkd
    ensures b.Recoverable()
  {
    for i := 0 to |configs|
      invariant b.Recoverable()
      invariant (forall c <- b.works :: c in configs[..i]) && (forall c <- b.asked :: c in configs[..i])
    {
      if * {
        var dies := *;
        var recovered := b.RecoverPack(polls, dies);
      }
      assert configs[..i + 1] == configs[..i] + [configs[i]];
      var packed := b.PackCheckpoint(configs[i], polls, faults[i]);
    }
  }

  /** A pack that died right after its first marker. */
  method DiedPrepared(c: Config) returns (b: Bundle)
    ensures fresh(b) && fresh(b.ublkd) && b.ublkd.calm && b.Recoverable() && b.marker == Active(c, Prepared) && c in b.works
  {
    var ublkd := new Daemon({c}, true);
    b := new Bundle(ublkd);
    b.works := b.works + {c};
    var marked := b.Mark(c, Prepared);
  }

  /** A recovery that dies between removing the work directory and removing the marker, in any phase. */
  method CrashedBeforeMarker(b: Bundle, polls: nat)
    requires b.Recoverable() && b.ublkd.calm && b.Reaches(polls)
    modifies b, b.ublkd
    ensures b.Recoverable() && b.marker == old(b.marker) && b.marker.work !in b.works
  {
    var recovered := b.RecoverPack(polls, true);
  }

  /** From such a state recovery is stuck for good in every phase but `released`, however often it is run. */
  method StuckForGood(b: Bundle, polls: nat, tries: nat) returns (recovered: bool)
    requires b.Recoverable() && b.marker.Active? && b.marker.work !in b.works && !b.marker.phase.Released?
    modifies b, b.ublkd
    ensures !recovered && b.Recoverable() && b.marker == old(b.marker)
  {
    recovered := false;
    for i := 0 to tries
      invariant !recovered && b.Recoverable() && b.marker == old(b.marker) && b.marker.work !in b.works
    {
      var dies := *;
      recovered := b.RecoverPack(polls, dies);
    }
  }

  /** One whole run into the stuck state, on a host where nothing but the two crashes goes wrong. */
  method StuckRun(c: Config, polls: nat, tries: nat) returns (b: Bundle, recovered: bool)
    ensures !recovered && b.Recoverable() && b.marker == Active(c, Prepared)
  {
    b := DiedPrepared(c);
    CrashedBeforeMarker(b, polls);
    recovered := StuckForGood(b, polls, tries);
  }
}
