/** deviceAttachment: ownership of one ublk device across uncertain Add and Del replies. */
module DeviceAttachment {
  import opened Ublkd
  import opened DeviceRelease

  /** The fields of a deviceAttachment; the source writes an unknown id as -1. */
  datatype Track = Track(attached: bool, devID: int, addOutcomeUnknown: bool)

  /** What the fields promise about the devices and the in-flight Add of the config. */
  predicate Sound(t: Track, ids: set<DevId>, flying: bool) {
    && Single(ids, flying)
    && (!t.attached ==> ids == {} && !flying)
    && (t.attached && t.devID >= 0 ==> ids == {t.devID} && !flying)
    && (flying ==> t.addOutcomeUnknown)
  }

  lemma SoundSettles(t: Track, ids: set<DevId>, flying: bool, ids': set<DevId>, flying': bool)
    requires Sound(t, ids, flying) && Settles(ids, flying, ids', flying')
    ensures Sound(t, ids', flying')
  {}

  /** The fields after add returned. */
  function AfterAdd(reply: AddReply): Track {
    Track(true, if reply.Added? then reply.id else -1, reply.OutcomeUnknown?)
  }

  /** What one Add request can do to its config, by reply. */
  predicate AddEffect(ids: set<DevId>, flying: bool, reply: AddReply, ids': set<DevId>, flying': bool) {
    match reply
    case Added(id) => !flying && !flying' && id !in ids && ids' == ids + {id}
    case Failed => flying' == flying && (ids' == ids || (!flying && Landed(ids, ids')))
    case OutcomeUnknown =>
      || (flying' == flying && ids' == ids)
      || (!flying && flying' && ids' == ids)
      || (!flying && !flying' && Landed(ids, ids'))
  }

  ghost predicate AddKeepsSound(t: Track) {
    forall ids, flying, reply, ids', flying' ::
      Sound(t, ids, flying) && AddEffect(ids, flying, reply, ids', flying') ==> Sound(AfterAdd(reply), ids', flying')
  }

  /**
   add keeps the promise for every daemon and every reply exactly when the attachment is not marked
   attached: a second add while one device or one uncertain Add is tracked forgets it.
   */
  lemma AddSoundIffDetached(t: Track)
    ensures AddKeepsSound(t) <==> !t.attached
  {
    if t.attached {
      var d: DevId := if t.devID >= 0 then t.devID else 0;
      assert Sound(t, {d}, false);
      assert AddEffect({d}, false, Added(d + 1), {d} + {d + 1}, false);
      assert !Sound(AfterAdd(Added(d + 1)), {d} + {d + 1}, false) by {
        assert d in {d} + {d + 1};
      }
    }
  }

  class DeviceAttachment {
    const config: Config
    var devID: int
    var attached: bool
    var addOutcomeUnknown: bool

    function Fields(): Track
      reads this
    {
      Track(attached, devID, addOutcomeUnknown)
    }

    ghost predicate Valid(ublkd: Daemon)
      reads this, ublkd
    {
      config in ublkd.ours && Sound(Fields(), ublkd.IdsOf(config), config in ublkd.inFlight)
    }

    /** An uncertain Add shows no device: the one state in which a detach on a calm host reports failure. */
    ghost predicate Hidden(ublkd: Daemon)
      reads this, ublkd
    {
      attached && addOutcomeUnknown && ublkd.IdsOf(config) == {}
    }

    /** trackDevice: nothing is attached yet, whatever the rollback later finds. */
    constructor (config: Config)
      ensures this.config == config && Fields() == Track(false, -1, false)
    {
      this.config, devID, attached, addOutcomeUnknown := config, -1, false, false;
    }

    /** Sends the Add; the promise of the fields survives if nothing was tracked before (see AddSoundIffDetached). */
    method Add(ublkd: Daemon) returns (ok: bool)
      requires config in ublkd.ours
      modifies this, ublkd`devices, ublkd`inFlight
      ensures attached && (ok <==> devID >= 0)
      ensures old(Valid(ublkd)) && !old(attached) ==> Valid(ublkd)
      ensures old(Valid(ublkd)) && !old(attached) && ok ==> ublkd.IdsOf(config) == {devID} && config !in ublkd.inFlight
      ensures ublkd.calm && config !in old(ublkd.inFlight) ==> ok && !addOutcomeUnknown && ublkd.CalmElsewhere(config)
      ensures ublkd.OthersSettled({config})
    {
      ublkd.Drift();
      attached, addOutcomeUnknown, devID := true, false, -1;
      label L:
      ghost var newId;
      var reply;
      reply, newId := ublkd.Add(config);
      if ublkd.devices != old@L(ublkd.devices) { AddedLands(old@L(ublkd.devices), newId, config); }
      assert AddEffect(old@L(ublkd.IdsOf(config)), config in old@L(ublkd.inFlight), reply,
                       ublkd.IdsOf(config), config in ublkd.inFlight);
      if !reply.Added? {
        addOutcomeUnknown := reply.OutcomeUnknown?;
        ok := false;
      } else {
        devID := reply.id;
        ok := true;
      }
    }

    /** The fast path: Del of the remembered id. Nobody else detaches it, so the id still is this config's device. */
    method ReleaseKnown(ublkd: Daemon) returns (ok: bool)
      requires Valid(ublkd) && attached && devID >= 0
      modifies ublkd
      ensures ublkd.IdsOf(config) <= {devID as DevId} && config !in ublkd.inFlight
      ensures ok ==> ublkd.IdsOf(config) == {}
      ensures ublkd.CalmElsewhere(config) && (ublkd.calm ==> ok)
      ensures ublkd.OthersSettled({config}) && ublkd.DetachedOnly(config)
    {
      ublkd.Drift();
      label L:
      ok := ublkd.Release(devID);
      assert forall c | c != config :: ublkd.IdsOf(c) == old@L(ublkd.IdsOf(c));
    }

    /**
     Success means the daemon holds no device under this config and no Add of it can still land; an
     error keeps the attachment. No request ever took down a device of another config.
     */
    method Detach(ublkd: Daemon) returns (ok: bool)
      requires Valid(ublkd)
      modifies this, ublkd
      ensures Valid(ublkd)
      ensures (ok <==> !attached) && (addOutcomeUnknown ==> old(addOutcomeUnknown))
      ensures ok ==> ublkd.IdsOf(config) == {} && config !in ublkd.inFlight
      ensures config in ublkd.inFlight ==> config in old(ublkd.inFlight)
      ensures old(ublkd.IdsOf(config)) == {} && config !in old(ublkd.inFlight) ==> ublkd.IdsOf(config) == {}
      ensures !old(attached) ==> ok && ublkd.devices == old(ublkd.devices) && ublkd.inFlight == old(ublkd.inFlight)
      ensures ublkd.CalmElsewhere(config) && (ublkd.calm ==> (ok <==> !old(Hidden(ublkd))))
      ensures ublkd.OthersSettled({config}) && ublkd.DetachedOnly(config)
    {
      if !attached { return true; }
      if devID >= 0 {
        ok := ReleaseKnown(ublkd);
        if ok {
          attached, addOutcomeUnknown := false, false;
          return;
        }
        devID := -1;
      }
      var matches, recovered := ReleaseOwnedDevicesByConfig(ublkd, config);
      if !recovered { return false; }
      if addOutcomeUnknown && matches == 0 { return false; }
      attached, addOutcomeUnknown := false, false;
      return true;
    }
  }

  datatype Call = AddCall | DetachCall

  /**
   Any sequence of calls on one attachment, with lost replies, definite failures and recycled ids, where
   add is called only on a detached attachment (see AddSoundIffDetached): the fields account for the
   daemon after every call, and no request of the whole sequence hit a device of another config. After a
   detach that succeeded nothing is attached under the config and no Add of it can land. On a calm host that
   knows of no uncertain Add every call does what it says.
   */
  method AnyCalls(a: DeviceAttachment, ublkd: Daemon, calls: seq<Call>) returns (detached: bool)
    requires a.Valid(ublkd)
    modifies a, ublkd
    ensures a.Valid(ublkd) && ublkd.DetachedOnly(a.config)
    ensures detached ==> ublkd.IdsOf(a.config) == {} && a.config !in ublkd.inFlight
    ensures detached <==> calls != [] && calls[|calls| - 1].DetachCall? && !a.attached
    ensures ublkd.calm && a.config !in old(ublkd.inFlight) && !old(a.addOutcomeUnknown) && calls != [] ==>
              (a.attached <==> calls[|calls| - 1].AddCall?)
  {
    detached := false;
    for i := 0 to |calls|
      invariant a.Valid(ublkd) && ublkd.DetachedOnly(a.config)
      invariant detached ==> ublkd.IdsOf(a.config) == {} && a.config !in ublkd.inFlight
      invariant detached <==> i > 0 && calls[i - 1].DetachCall? && !a.attached
      invariant ublkd.calm && a.config !in old(ublkd.inFlight) && !old(a.addOutcomeUnknown) ==>
                  a.config !in ublkd.inFlight && !a.addOutcomeUnknown && (i > 0 ==> (a.attached <==> calls[i - 1].AddCall?))
    {
      if calls[i].DetachCall? {
        detached := a.Detach(ublkd);
      } else {
        detached := false;
        if !a.attached { var added := a.Add(ublkd); }
      }
    }
  }
}
