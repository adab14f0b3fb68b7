/** The rollback stack: undo steps run from the last to the first, stopping at the first failure. */
module Rollback {
  import opened Ublkd
  import opened DeviceAttachment

  type Path = string

  /** The host resources of one build besides its devices. */
  class Host {
    var dirs: set<Path>
    var mounts: set<Path>
    var vmms: set<nat>

    constructor ()
      ensures dirs == {} && mounts == {} && vmms == {}
    {
      dirs, mounts, vmms := {}, {}, {};
    }
  }

  /** One compensating action: what it undoes, and how. */
  datatype Undo =
    | RemoveDir(path: Path, keep: bool)
    | DetachDevice(device: DeviceAttachment)
    | UnmountFs(path: Path)
    | StopVmm(pid: nat)

  function Devices(steps: seq<Undo>): set<DeviceAttachment> {
    set i | 0 <= i < |steps| && steps[i].DetachDevice? :: steps[i].device
  }

  function ConfigsOf(steps: seq<Undo>): set<Config> {
    set i | 0 <= i < |steps| && steps[i].DetachDevice? :: steps[i].device.config
  }

  /** What undoing these steps removes from the host. */
  function DirsOf(steps: seq<Undo>): set<Path> {
    set i | 0 <= i < |steps| && steps[i].RemoveDir? && !steps[i].keep :: steps[i].path
  }

  function MountsOf(steps: seq<Undo>): set<Path> {
    set i | 0 <= i < |steps| && steps[i].UnmountFs? :: steps[i].path
  }

  function VmmsOf(steps: seq<Undo>): set<nat> {
    set i | 0 <= i < |steps| && steps[i].StopVmm? :: steps[i].pid
  }

  ghost predicate Tracked(steps: seq<Undo>, ublkd: Daemon)
    reads ublkd, Devices(steps)
  {
    && (forall a <- Devices(steps) :: a.Valid(ublkd))
    && (forall i, j :: 0 <= i < j < |steps| && steps[i].DetachDevice? && steps[j].DetachDevice? ==>
          steps[i].device.config != steps[j].device.config)
  }

  /** Exactly the resources of these steps have left the host. */
  twostate predicate Undone(steps: seq<Undo>, host: Host)
    reads host
  {
    && host.dirs == old(host.dirs) - DirsOf(steps)
    && host.mounts == old(host.mounts) - MountsOf(steps)
    && host.vmms == old(host.vmms) - VmmsOf(steps)
  }

  /**
   Whether an undo fails on a calm host: it is made to, or it is a detach of an uncertain Add that shows no
   device. A directory that is kept has nothing to fail.
   */
  ghost predicate Fails(step: Undo, faulty: bool, ublkd: Daemon)
    reads ublkd, Devices([step])
  {
    assert [step][0] == step;
    match step
    case RemoveDir(_, keep) => faulty && !keep
    case DetachDevice(a) => a.Hidden(ublkd)
    case UnmountFs(_) => faulty
    case StopVmm(_) => faulty
  }

  /** The steps whose undo fails on a calm host when those in `faulty` are made to fail. */
  ghost function Failing(steps: seq<Undo>, faulty: set<nat>, ublkd: Daemon): set<nat>
    reads ublkd, Devices(steps)
  {
    set i | 0 <= i < |steps| && Fails(steps[i], i in faulty, ublkd)
  }

  /** Runs one undo. It releases its own resource or reports an error, and touches no other step's resource. */
  method RunUndo(step: Undo, host: Host, ublkd: Daemon, faulty: bool) returns (ok: bool)
    requires step.DetachDevice? ==> step.device.Valid(ublkd)
    modifies host, ublkd, if step.DetachDevice? then {step.device} else {}
    ensures Undone(if ok then [step] else [], host)
    ensures ok && step.DetachDevice? ==> !step.device.attached
    ensures step.DetachDevice? ==> step.device.Valid(ublkd)
    ensures ublkd.OthersSettled(if step.DetachDevice? then {step.device.config} else {})
    ensures ublkd.DetachedWithin(if step.DetachDevice? then {step.device.config} else {})
    ensures ublkd.calm ==> (ok <==> !old(Fails(step, faulty, ublkd))) && ublkd.inFlight == old(ublkd.inFlight)
    ensures ublkd.calm ==> forall c | !step.DetachDevice? || c != step.device.config :: ublkd.IdsOf(c) == old(ublkd.IdsOf(c))
  {
    assert [step][0] == step;
    match step
    case RemoveDir(p, keep) =>
      ublkd.Drift();
      ok := Try(ublkd.calm, faulty);
      if keep { return true; }
      if ok { host.dirs := host.dirs - {p}; }
    case DetachDevice(a) =>
      ok := a.Detach(ublkd);
    case UnmountFs(p) =>
      ublkd.Drift();
      ok := Try(ublkd.calm, faulty);
      if ok { host.mounts := host.mounts - {p}; }
    case StopVmm(pid) =>
      ublkd.Drift();
      ok := Try(ublkd.calm, faulty);
      if ok { host.vmms := host.vmms - {pid}; }
  }

  lemma ConsUndo(step: Undo, rest: seq<Undo>)
    ensures DirsOf([step] + rest) == DirsOf([step]) + DirsOf(rest)
    ensures MountsOf([step] + rest) == MountsOf([step]) + MountsOf(rest)
    ensures VmmsOf([step] + rest) == VmmsOf([step]) + VmmsOf(rest)
  {
    var all := [step] + rest;
    assert forall i | 0 <= i < |rest| :: all[i + 1] == rest[i];
    assert all[0] == step;
  }

  /** What undoing from index - 1 on removes is what that step and the later ones remove. */
  lemma SplitUndo(steps: seq<Undo>, index: nat)
    requires 0 < index <= |steps|
    ensures var step, rest := [steps[index - 1]], steps[index..];
            && DirsOf(steps[index - 1..]) == DirsOf(step) + DirsOf(rest)
            && MountsOf(steps[index - 1..]) == MountsOf(step) + MountsOf(rest)
            && VmmsOf(steps[index - 1..]) == VmmsOf(step) + VmmsOf(rest)
  {
    var step := steps[index - 1];
    assert steps[index - 1..] == [step] + steps[index..];
    ConsUndo(step, steps[index..]);
  }

  lemma SnocUndo(steps: seq<Undo>, step: Undo)
    ensures MountsOf(steps + [step]) == MountsOf(steps) + MountsOf([step])
    ensures VmmsOf(steps + [step]) == VmmsOf(steps) + VmmsOf([step])
    ensures Devices(steps + [step]) == Devices(steps) + Devices([step])
    ensures ConfigsOf(steps + [step]) == ConfigsOf(steps) + ConfigsOf([step])
  {
    var all := steps + [step];
    assert forall i | 0 <= i < |steps| :: all[i] == steps[i];
    assert all[|steps|] == step == [step][0];
  }

  /** One undo seen from the whole stack: every tracked device keeps its promise, and only its own step changes. */
  method UndoOne(steps: seq<Undo>, index: nat, host: Host, ublkd: Daemon, faulty: set<nat>) returns (ok: bool)
    requires index < |steps| && Tracked(steps, ublkd)
    modifies host, ublkd, if steps[index].DetachDevice? then {steps[index].device} else {}
    ensures Tracked(steps, ublkd)
    ensures Undone(if ok then [steps[index]] else [], host)
    ensures ublkd.OthersSettled(ConfigsOf(steps)) && ublkd.DetachedWithin(ConfigsOf(steps))
    ensures ok && steps[index].DetachDevice? ==> !steps[index].device.attached
    ensures ublkd.calm ==> (ok <==> index !in old(Failing(steps, faulty, ublkd)))
    ensures ublkd.calm ==>
              forall i | 0 <= i < |steps| && i != index ::
                Fails(steps[i], i in faulty, ublkd) == old(Fails(steps[i], i in faulty, ublkd))
  {
    var step := steps[index];
    ok := RunUndo(step, host, ublkd, index in faulty);
    forall a <- Devices(steps) ensures a.Valid(ublkd) {
      if !(step.DetachDevice? && a == step.device) {
        SoundSettles(a.Fields(), old(ublkd.IdsOf(a.config)), a.config in old(ublkd.inFlight),
                     ublkd.IdsOf(a.config), a.config in ublkd.inFlight);
      }
    }
  }

  class RollbackStack {
    var steps: seq<Undo>

    constructor ()
      ensures steps == []
    {
      steps := [];
    }

    method Push(step: Undo)
      modifies this
      ensures steps == old(steps) + [step]
    {
      steps := steps + [step];
    }

    method Disarm()
      modifies this
      ensures steps == []
    {
      steps := [];
    }

    /**
     The steps are undone from the last to the first until one fails. Exactly a suffix was undone and
     exactly the remaining prefix is reported; within that prefix nothing changed, except that the step
     that failed may have been left uncertain. So a directory is removed only after everything pushed
     after it was released, and every device taken down belonged to a pushed step. `faulty` names the steps
     whose undo is made to fail: on a calm host the last one that fails is the last one kept.
     */
    method Run(host: Host, ublkd: Daemon, faulty: set<nat>) returns (ok: bool, kept: seq<Undo>)
      requires Tracked(steps, ublkd)
      modifies this, host, ublkd, Devices(steps)
      ensures steps == [] && kept <= old(steps) && (ok <==> kept == [])
      ensures Tracked(old(steps), ublkd)
      ensures Undone(old(steps)[|kept|..], host)
      ensures ublkd.OthersSettled(ConfigsOf(old(steps))) && ublkd.DetachedWithin(ConfigsOf(old(steps)))
      ensures forall a <- Devices(old(steps)[|kept|..]) :: !a.attached
      ensures !ok ==> forall a <- Devices(old(steps)[..|kept| - 1]) :: a.Fields() == old(a.Fields())
      ensures ublkd.calm ==> forall i <- old(Failing(steps, faulty, ublkd)) :: i < |kept|
      ensures ublkd.calm && !ok ==> |kept| - 1 in old(Failing(steps, faulty, ublkd))
    {
      var steps := this.steps;
      this.steps := [];
      ghost var failing := Failing(steps, faulty, ublkd);
      var index := |steps|;
      while index > 0
        invariant 0 <= index <= |steps| && this.steps == []
        invariant Tracked(steps, ublkd)
        invariant Undone(steps[index..], host)
        invariant ublkd.OthersSettled(ConfigsOf(steps)) && ublkd.DetachedWithin(ConfigsOf(steps))
        invariant forall i | index <= i < |steps| && steps[i].DetachDevice? :: !steps[i].device.attached
        invariant forall i | 0 <= i < index && steps[i].DetachDevice? :: steps[i].device.Fields() == old(steps[i].device.Fields())
        invariant ublkd.calm ==> forall i <- failing :: i < index
        invariant ublkd.calm ==> forall i | 0 <= i < index :: Fails(steps[i], i in faulty, ublkd) <==> i in failing
      {
        SplitUndo(steps, index);
        var undone := UndoOne(steps, index - 1, host, ublkd, faulty);
        if !undone {
          return false, steps[..index];
        }
        index := index - 1;
      }
      return true, [];
    }
  }
}
