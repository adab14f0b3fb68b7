/** releaseOwnedDevices, releaseOwnedDevicesByConfig and FenceAdd: detaching by config, never by a remembered id. */
module DeviceRelease {
  import opened Ublkd

  /**
   Releases every device that an earlier List showed under the config. `flying` says whether an Add of
   it was in flight at that List, and `rest` names the listed devices that are left: on success none,
   so all that can be attached or in flight is what that one Add still produces.
   */
  method ReleaseOwnedDevices(ublkd: Daemon, listed: map<DevId, Config>, c: Config, ghost flying: bool)
    returns (matches: nat, ok: bool, ghost rest: set<DevId>)
    requires c in ublkd.ours
    requires Settles(Ids(listed, c), flying, ublkd.IdsOf(c), c in ublkd.inFlight)
    modifies ublkd
    ensures matches == |Ids(listed, c)|
    ensures rest <= Ids(listed, c) && (ok ==> rest == {}) && (matches == 0 ==> ok)
    ensures Settles(rest, flying, ublkd.IdsOf(c), c in ublkd.inFlight)
    ensures Ids(listed, c) == {} ==> ublkd.devices == old(ublkd.devices) && ublkd.inFlight == old(ublkd.inFlight)
    ensures ublkd.CalmElsewhere(c) && (ublkd.calm ==> ok)
    ensures ublkd.OthersSettled({c}) && ublkd.DetachedOnly(c)
  {
    matches, ok := 0, true;
    var todo := listed.Keys;
    rest := Ids(listed, c);
    while todo != {}
      invariant todo <= listed.Keys
      invariant matches == |Ids(listed, c) - todo|
      invariant Ids(listed, c) * todo <= rest <= Ids(listed, c)
      invariant (ok ==> rest <= todo) && (matches == 0 ==> ok)
      invariant matches == 0 ==> ublkd.devices == old(ublkd.devices) && ublkd.inFlight == old(ublkd.inFlight)
      invariant ublkd.CalmElsewhere(c) && (ublkd.calm ==> ok)
      invariant Settles(rest, flying, ublkd.IdsOf(c), c in ublkd.inFlight)
      invariant ublkd.OthersSettled({c}) && ublkd.DetachedOnly(c)
    {
      var id :| id in todo;
      if listed[id] == c {
        matches := matches + 1;
        var released;
        released, rest := DriftAndRelease(ublkd, id, c, rest, flying);
        ok := ok && released;
      }
      CountOne(Ids(listed, c), todo, id);
      todo := todo - {id};
    }
  }

  lemma CountOne(ids: set<DevId>, todo: set<DevId>, id: DevId)
    requires id in todo
    ensures |ids - (todo - {id})| == |ids - todo| + if id in ids then 1 else 0
  {
    if id in ids {
      assert ids - (todo - {id}) == (ids - todo) + {id};
    } else {
      assert ids - (todo - {id}) == ids - todo;
    }
  }

  /** One Release of a listed id, any time after the listing; `left` is what of `rest` it leaves. */
  method DriftAndRelease(ublkd: Daemon, id: DevId, c: Config, ghost rest: set<DevId>, ghost flying: bool)
    returns (ok: bool, ghost left: set<DevId>)
    requires c in ublkd.ours && id in rest
    requires Settles(rest, flying, ublkd.IdsOf(c), c in ublkd.inFlight)
    modifies ublkd
    ensures left == rest - {id} || (!ok && left == rest)
    ensures Settles(left, flying, ublkd.IdsOf(c), c in ublkd.inFlight)
    ensures ublkd.CalmElsewhere(c) && (ublkd.calm ==> ok)
    ensures ublkd.OthersSettled({c}) && ublkd.DetachedOnly(c)
  {
    ublkd.Drift();
    label L:
    assert id in ublkd.IdsOf(c);
    ok := ublkd.Release(id);
    left := if ok || id !in ublkd.IdsOf(c) then rest - {id} else rest;
    assert forall c' | c' != c :: ublkd.IdsOf(c') == old@L(ublkd.IdsOf(c'));
  }

  /**
   Lists, then releases what the List showed. On success nothing of the config is attached or in
   flight, except what an Add that was in flight at the call and missed the List can still produce; in
   that case the match count is the number of devices there were before, zero if there were none.
   */
  method ReleaseOwnedDevicesByConfig(ublkd: Daemon, c: Config) returns (matches: nat, ok: bool)
    requires c in ublkd.ours
    modifies ublkd
    ensures ok ==> Settles({}, c in old(ublkd.inFlight), ublkd.IdsOf(c), c in ublkd.inFlight)
    ensures ok && (ublkd.IdsOf(c) != {} || c in ublkd.inFlight) ==> matches == |old(ublkd.IdsOf(c))|
    ensures old(Single(ublkd.IdsOf(c), c in ublkd.inFlight)) ==> Single(ublkd.IdsOf(c), c in ublkd.inFlight)
    ensures c in ublkd.inFlight ==> c in old(ublkd.inFlight)
    ensures old(ublkd.IdsOf(c)) == {} && c !in old(ublkd.inFlight) ==> ublkd.IdsOf(c) == {}
    ensures ublkd.CalmElsewhere(c) && (ublkd.calm ==> ok && matches == |old(ublkd.IdsOf(c))|)
    ensures ublkd.OthersSettled({c}) && ublkd.DetachedOnly(c)
  {
    ublkd.Drift();
    var listedOk, listed := ublkd.List();
    if !listedOk { return 0, false; }
    ghost var flying := c in ublkd.inFlight;
    ghost var rest;
    matches, ok, rest := ReleaseOwnedDevices(ublkd, listed, c, flying);
  }

  /** The answers FenceAdd distinguishes when it adds the config it has just made invalid. */
  datatype FenceReply = Transport | StartFailed | InProgress | Unfamiliar

  /** An Add of an invalid config attaches nothing: it is refused while another Add holds the guard, else it fails to start. */
  method AddRetired(ublkd: Daemon, c: Config) returns (reply: FenceReply)
    ensures reply.StartFailed? ==> c !in ublkd.inFlight
    ensures reply.InProgress? ==> c in ublkd.inFlight
    ensures ublkd.calm ==> reply == if c in ublkd.inFlight then InProgress else StartFailed
  {
    reply := *;
    if ublkd.calm {
      reply := if c in ublkd.inFlight then InProgress else StartFailed;
    } else if (reply.StartFailed? && c in ublkd.inFlight) || (reply.InProgress? && c !in ublkd.inFlight) {
      reply := Unfamiliar;
    }
  }

  /**
   The fence: success proves that no Add of the config is in flight any more, and whatever it produced
   is attached by then. `polls` is how many polls fit into the deadline.
   */
  method FenceAdd(ublkd: Daemon, c: Config, polls: nat) returns (ok: bool)
    requires c in ublkd.ours
    modifies ublkd
    ensures ok ==> c !in ublkd.inFlight
    ensures Settles(old(ublkd.IdsOf(c)), c in old(ublkd.inFlight), ublkd.IdsOf(c), c in ublkd.inFlight)
    ensures ublkd.OthersSettled({}) && ublkd.detached == old(ublkd.detached)
    ensures ublkd.calm ==> (ok <==> polls > 0 && c !in old(ublkd.inFlight))
    ensures ublkd.calm ==> ublkd.devices == old(ublkd.devices) && ublkd.inFlight == old(ublkd.inFlight)
  {
    var retired := *;   // writing the invalid config
    if !retired && !ublkd.calm { return false; }
    var i := 0;
    while i < polls
      invariant Settles(old(ublkd.IdsOf(c)), c in old(ublkd.inFlight), ublkd.IdsOf(c), c in ublkd.inFlight)
      invariant ublkd.OthersSettled({}) && ublkd.detached == old(ublkd.detached)
      invariant ublkd.calm ==> ublkd.devices == old(ublkd.devices) && ublkd.inFlight == old(ublkd.inFlight)
      invariant ublkd.calm && i > 0 ==> c in old(ublkd.inFlight)
    {
      ublkd.Drift();
      var reply := AddRetired(ublkd, c);
      if reply.StartFailed? { return true; }
      if !reply.InProgress? { return false; }
      i := i + 1;
    }
    return false;
  }
}
