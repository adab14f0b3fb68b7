/**
 The overlaybd-ublkd daemon as its clients see it.

 The daemon serves other clients too. Between any two requests of this process it may attach and
 detach devices of other configs, reuse their ids, and let an in-flight Add of one of our configs
 land or fail (`Drift`). Nobody else adds or deletes devices under a config in `ours`.
 */
module Ublkd {
  type DevId = nat
  /** The absolute config path handed to ublkd: a device's ownership identity. */
  datatype Config = Config(path: string)

  /** Add and Acquire as ublkdClient classifies them; `Failed` covers every error except errAddOutcomeUnknown. */
  datatype AddReply = Added(id: DevId) | OutcomeUnknown | Failed

  function Ids(devices: map<DevId, Config>, c: Config): set<DevId> {
    set id | id in devices && devices[id] == c
  }

  predicate Landed(before: set<DevId>, after: set<DevId>) {
    before <= after && exists x <- after :: x !in before && forall y <- after :: y == x || y in before
  }

  /** What time alone does to one config: an in-flight Add may finish, leaving one new device or none. */
  predicate Settles(ids: set<DevId>, flying: bool, ids': set<DevId>, flying': bool) {
    (ids' == ids && (flying' ==> flying)) || (flying && !flying' && Landed(ids, ids'))
  }

  /** At most one device or in-flight Add exists for the config. */
  predicate Single(ids: set<DevId>, flying: bool) {
    (forall x <- ids, y <- ids :: x == y) && (flying ==> ids == {})
  }

  lemma SettlesSingle(ids: set<DevId>, flying: bool, ids': set<DevId>, flying': bool)
    requires Single(ids, flying) && Settles(ids, flying, ids', flying')
    ensures Single(ids', flying')
  {}

  lemma AddedLands(before: map<DevId, Config>, id: DevId, c: Config)
    requires id !in before
    ensures Ids(before[id := c], c) == Ids(before, c) + {id} && Landed(Ids(before, c), Ids(before[id := c], c))
    ensures forall c' | c' != c :: Ids(before[id := c], c') == Ids(before, c')
  {
    assert Ids(before[id := c], c) == Ids(before, c) + {id};
    forall c' | c' != c ensures Ids(before[id := c], c') == Ids(before, c') {
      assert id !in Ids(before[id := c], c');
    }
  }

  /** A file operation or a process step of the host: on a calm one it succeeds, unless it is made to fail. */
  method Try(calm: bool, fails: bool := false) returns (ok: bool)
    ensures calm ==> (ok <==> !fails)
  {
    ok := *;
    if calm { ok := !fails; }
  }

  class Daemon {
    var devices: map<DevId, Config>
    var inFlight: set<Config>
    /** The configs only this process uses. */
    const ours: set<Config>
    /**
     Whether nothing goes wrong on this host: every request and file operation succeeds and nobody else
     acts. All contracts hold for both values; what a process must achieve is stated for a calm host.
     */
    const calm: bool
    /** The device each of our Del and Release requests took down. */
    ghost var detached: seq<(DevId, Config)>

    constructor (ours: set<Config>, calm: bool)
      ensures devices == map[] && inFlight == {} && this.ours == ours && this.calm == calm && detached == []
    {
      devices, inFlight, detached := map[], {}, [];
      this.ours, this.calm := ours, calm;
    }

    /** Some id no device has. */
    method UnusedId() returns (id: DevId)
      ensures id !in devices
    {
      id := 0;
      var left := devices.Keys;
      while left != {}
        invariant left <= devices.Keys && forall d | d in devices && d !in left :: d < id
      {
        var d :| d in left;
        left := left - {d};
        if d >= id { id := d + 1; }
      }
    }

    function IdsOf(c: Config): set<DevId>
      reads this
    {
      Ids(devices, c)
    }

    /** Every config of ours except `but` only settled since the old state. */
    twostate predicate OthersSettled(but: set<Config>)
      reads this
    {
      forall c <- ours - but :: Settles(old(IdsOf(c)), c in old(inFlight), IdsOf(c), c in inFlight)
    }

    /** Our requests since the old state took down devices of this config only. */
    twostate predicate DetachedOnly(c: Config)
      reads this
    {
      && old(detached) <= detached
      && forall i | |old(detached)| <= i < |detached| :: detached[i].1 == c
    }

    /** On a calm host nothing happened since the old state but to this config. */
    twostate predicate CalmElsewhere(c: Config)
      reads this
    {
      calm ==> inFlight == old(inFlight) && forall c' | c' != c :: IdsOf(c') == old(IdsOf(c'))
    }

    /** Our requests since the old state took down devices of these configs only. */
    twostate predicate DetachedWithin(configs: set<Config>)
      reads this
    {
      && old(detached) <= detached
      && forall i | |old(detached)| <= i < |detached| :: detached[i].1 in configs
    }

    /** No request of ours ever took down a device of a config that is not ours. */
    ghost predicate OwnOnly()
      reads this
    {
      forall i | 0 <= i < |detached| :: detached[i].1 in ours
    }

    method Drift()
      modifies this`devices, this`inFlight
      ensures OthersSettled({})
      ensures calm ==> devices == old(devices) && inFlight == old(inFlight)
    {
      var d: map<DevId, Config>, f: set<Config> := *, *;
      if !calm && forall c <- ours :: Settles(IdsOf(c), c in inFlight, Ids(d, c), c in f) {
        devices, inFlight := d, f;
      }
    }

    /**
     An Add or Acquire request. The daemon runs one Add per config at a time, and replies only when it
     has finished. Without a readable reply a request that never connected did nothing (Failed), one
     that got a response but no body has finished (Failed), and any other may still run.
     */
    method Add(c: Config) returns (reply: AddReply, ghost newId: DevId)
      modifies this`devices, this`inFlight
      ensures devices == old(devices) || (newId !in old(devices) && c !in old(inFlight) && devices == old(devices)[newId := c])
      ensures devices != old(devices) ==> inFlight == old(inFlight)
      ensures reply.Added? ==> devices != old(devices) && reply.id == newId
      ensures inFlight == old(inFlight) || (reply.OutcomeUnknown? && c !in old(inFlight) && inFlight == old(inFlight) + {c})
      ensures calm && c !in old(inFlight) ==> reply.Added?
    {
      var accepted: bool, replied: bool, done: bool, started: bool, readable: bool, id: DevId := *, *, *, *, *, *;
      if calm {
        accepted, replied, done, started, readable := true, true, true, true, true;
        id := UnusedId();
      }
      newId := id;
      if c in inFlight || !accepted || id in devices {
        return if replied then Failed else OutcomeUnknown, newId;
      }
      if !done {
        inFlight := inFlight + {c};
        return OutcomeUnknown, newId;
      }
      if started {
        devices := devices[id := c];
        if replied && readable { return Added(id), newId; }
      }
      return if replied then Failed else OutcomeUnknown, newId;
    }

    /** Del or Release of one id: a lost reply took effect before the error was seen, or never does. */
    method Release(id: DevId) returns (ok: bool)
      modifies this`devices, this`detached
      ensures ok ==> devices == old(devices) - {id}
      ensures calm ==> ok
      ensures devices == old(devices) || devices == old(devices) - {id}
      ensures detached == if id in old(devices) && id !in devices then old(detached) + [(id, old(devices)[id])] else old(detached)
    {
      var effect := *;
      ok := *;
      effect := effect || calm;
      ok := (ok || calm) && effect;
      if effect && id in devices {
        detached := detached + [(id, devices[id])];
        devices := devices - {id};
      }
    }

    method List() returns (ok: bool, listed: map<DevId, Config>)
      ensures ok ==> listed == devices
      ensures calm ==> ok
    {
      ok := *;
      ok := ok || calm;
      listed := devices;
    }
  }
}
