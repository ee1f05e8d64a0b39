/**
 The workload identity gate (internal/controllers/controlplane/ha_identity.go): the pin is
 taken only from answers that all agree, every other answer freezes the control plane, and a
 freeze is lifted only when an operator moved the pin.

 Addresses the gate may ask, besides the endpoint, are a parameter (`vias`).
*/
module HaIdentity {
  import opened Wrappers
  import opened EtcdTypes
  import opened IdentityPin
  import opened HaWorld
  import opened HaApi

  const ENDPOINT := "endpoint"
  const RECHECK_INTERVAL := 60

  datatype Verdict = Verified | Changed | NotPinned | NoAnswer

  datatype Gate = Gate(frozen: bool, hold: bool)

  datatype Observation = Observation(via: string, uid: Option<string>)

  /** Nothing but the freeze, and the revision, differs. */
  predicate SameButMismatch(k: Kcp, k': Kcp) {
    k' == k.(rv := k'.rv, mismatch := k'.mismatch)
  }

  /** The freeze the code itself would not lift: the pin on record in it is the pin shown, or it
      cannot be read. */
  predicate Stuck(k: Kcp) {
    k.mismatch.Some? && RecordedPin(k.mismatch.value).GetOr(DisplayUID(k.pin)) == DisplayUID(k.pin)
  }

  /** The time as text; nothing proved depends on it. */
  method TimeText() returns (at: string) {
    at := *;
  }

  /** tripIdentityFreeze: the first observation is kept, a later one changes nothing. */
  method Trip(r: Reconciler, uid: string, via: string)
    requires r.Valid() && r.scope != Nothing && uid != r.kcp.pin && Answered(uid) in r.w.seen
    modifies r`trace, r`w, r`worlds, r`trouble, r`kcp, r`identityCheckedAt
    ensures r.Valid() && Still(old(r.w), r.w) && SameButMismatch(old(r.kcp), r.kcp) && old(r.trace) <= r.trace
    ensures Frozen(old(r.kcp)) ==> r.kcp == old(r.kcp) && r.trace == old(r.trace)
    ensures Frozen(r.kcp) && !Frozen(old(r.kcp)) ==>
              r.identityCheckedAt == None && exists at :: r.kcp.mismatch == Some(MismatchValue(uid, via, at, r.kcp.pin))
    ensures !Frozen(r.kcp) ==> r.kcp == old(r.kcp) && r.trouble
    ensures r.kcp == old(r.kcp) ==> r.identityCheckedAt == old(r.identityCheckedAt)
    ensures old(r.trouble) ==> r.trouble
  {
    if !Frozen(r.kcp) {
      var at := TimeText();
      MismatchIsOk(r.w, r.kcp, uid, via, at);
      var res := r.PatchKcp(SetMismatch(MismatchValue(uid, via, at, r.kcp.pin)));
      if res == Patched {
        ForgetIdentityCheck(r);
      }
    }
  }

  lemma MismatchIsOk(w: World, k: Kcp, uid: string, via: string, at: string)
    requires !Frozen(k) && uid != k.pin && Answered(uid) in w.seen
    ensures var e := SetMismatch(MismatchValue(uid, via, at, k.pin)); KcpWriteOk(k, e) && Basis(w, k.pin, e)
  {
  }

  method ForgetIdentityCheck(r: Reconciler)
    requires r.Valid()
    modifies r`identityCheckedAt
    ensures r.Valid() && r.identityCheckedAt == None
  {
    r.identityCheckedAt := None;
  }

  /** verifyPinnedWorkloadIdentity: only a client of the pinned cluster passes. */
  method VerifyPinned(r: Reconciler, c: Client) returns (v: Verdict)
    requires r.Valid() && r.scope != Nothing
    modifies r`trace, r`w, r`worlds, r`trouble, r`kcp, r`identityCheckedAt
    ensures r.Valid() && Unread(old(r.w), r.w) && SameButMismatch(old(r.kcp), r.kcp) && old(r.trace) <= r.trace
    ensures Frozen(old(r.kcp)) ==> v == Changed && r.trace == old(r.trace)
    ensures !Frozen(old(r.kcp)) && r.kcp.pin == "" ==> v == NotPinned && r.trace == old(r.trace)
    ensures v == Verified ==> !Frozen(r.kcp) && OnPin(r.w, r.kcp.pin, c.cluster)
    ensures v != Changed ==> r.kcp == old(r.kcp)
    ensures v == NoAnswer ==> r.trouble
    ensures v == NotPinned ==> r.kcp.pin == ""
    ensures v == Changed && !Frozen(r.kcp) ==> r.trouble
    ensures v == Changed && !Frozen(old(r.kcp)) ==> c.cluster != r.kcp.pin
    ensures old(r.trouble) ==> r.trouble
  {
    if Frozen(r.kcp) {
      return Changed;
    }
    if r.kcp.pin == "" {
      return NotPinned;
    }
    var uid := r.ReadIdentity(c);
    if uid.None? {
      return NoAnswer;
    }
    if uid.value != r.kcp.pin {
      Trip(r, uid.value, c.via);
      return Changed;
    }
    return Verified;
  }

  /** identityApplies: always once pinned; before that, with etcd membership to protect and a
      Node registered. */
  ghost predicate Applies(kcp: Kcp, machines: seq<Machine>, desired: int) {
    kcp.pin != "" || ((desired > 1 || |machines| > 1) && exists m | m in machines :: m.nodeRef.Some?)
  }

  method IdentityApplies(kcp: Kcp, machines: seq<Machine>, desired: int) returns (b: bool)
    ensures b <==> Applies(kcp, machines, desired)
  {
    if kcp.pin != "" {
      return true;
    }
    if desired <= 1 && |machines| <= 1 {
      return false;
    }
    for i := 0 to |machines|
      invariant forall j | 0 <= j < i :: machines[j].nodeRef.None?
    {
      if machines[i].nodeRef.Some? {
        return true;
      }
    }
    return false;
  }

  /** One path asked: an empty UID is no answer. */
  method Observe(r: Reconciler, via: string) returns (o: Observation)
    requires r.Valid()
    modifies r`trace, r`w, r`worlds, r`trouble, r`tried
    ensures r.Valid() && Unread(old(r.w), r.w) && old(r.trace) <= r.trace
    ensures r.tried == old(r.tried) + [via] && OnlyThese(old(r.w), r.w, [o])
    ensures o.via == via && o.uid != Some("") && (o.uid.Some? ==> Answered(o.uid.value) in r.w.seen)
    ensures r.trouble == (old(r.trouble) || o.uid.None?)
  {
    o := Observation(via, None);
    var c := r.BuildClient(via);
    if c.Some? {
      var uid := r.ReadIdentity(c.value);
      o := Observation(via, uid);
    }
  }

  /** Every answer is the UID of a cluster that answered. */
  ghost predicate AllSeen(w: World, obs: seq<Observation>) {
    forall o | o in obs && o.uid.Some? :: o.uid.value != "" && Answered(o.uid.value) in w.seen
  }

  /** No cluster answered but as these observations say. */
  ghost predicate OnlyThese(w: World, w': World, obs: seq<Observation>) {
    forall f | f in w'.seen && f.Answered? :: f in w.seen || exists o | o in obs :: o.uid == Some(f.c)
  }

  /** A freeze names an answer that is not the pin, and the path it came by. */
  ghost predicate NamesOther(k: Kcp, obs: seq<Observation>) {
    k.mismatch.Some? ==> exists o, at | o in obs && o.uid.Some? ::
      o.uid.value != k.pin && k.mismatch.value == MismatchValue(o.uid.value, o.via, at, k.pin)
  }

  predicate SomeSilent(obs: seq<Observation>) {
    exists o | o in obs :: o.uid.None?
  }

  lemma OneMore(w: World, obs: seq<Observation>, o: Observation)
    ensures SomeSilent(obs + [o]) <==> SomeSilent(obs) || o.uid.None?
    ensures AllSeen(w, obs + [o]) <==> AllSeen(w, obs) && AllSeen(w, [o])
  {
    assert o in obs + [o];
    assert forall x | x in obs :: x in obs + [o];
  }

  lemma OneMoreOnly(w: World, w': World, w'': World, obs: seq<Observation>, o: Observation)
    requires OnlyThese(w, w', obs) && OnlyThese(w', w'', [o])
    ensures OnlyThese(w, w'', obs + [o])
  {
    assert o in obs + [o];
    assert forall x | x in obs :: x in obs + [o];
  }

  /** observeWorkloadIdentity: the endpoint, then every member. */
  method ObserveIdentity(r: Reconciler, vias: seq<string>) returns (obs: seq<Observation>)
    requires r.Valid()
    modifies r`trace, r`w, r`worlds, r`trouble, r`tried
    ensures r.Valid() && Unread(old(r.w), r.w) && |obs| == 1 + |vias| && old(r.trace) <= r.trace
    ensures r.tried == old(r.tried) + [ENDPOINT] + vias && OnlyThese(old(r.w), r.w, obs)
    ensures obs[0].via == ENDPOINT && forall i | 0 <= i < |vias| :: obs[i + 1].via == vias[i]
    ensures AllSeen(r.w, obs)
    ensures r.trouble == (old(r.trouble) || SomeSilent(obs))
  {
    var first := Observe(r, ENDPOINT);
    obs := [first];
    for i := 0 to |vias|
      invariant r.Valid() && Unread(old(r.w), r.w) && |obs| == 1 + i && old(r.trace) <= r.trace && OnlyThese(old(r.w), r.w, obs)
      invariant r.tried == old(r.tried) + [ENDPOINT] + vias[..i]
      invariant obs[0].via == ENDPOINT && forall j | 0 <= j < i :: obs[j + 1].via == vias[j]
      invariant AllSeen(r.w, obs)
      invariant r.trouble == (old(r.trouble) || SomeSilent(obs))
    {
      ghost var was := r.w;
      var o := Observe(r, vias[i]);
      OneMore(r.w, obs, o);
      OneMoreOnly(old(r.w), was, r.w, obs, o);
      obs := obs + [o];
    }
  }

  predicate AnyAnswer(obs: seq<Observation>) {
    exists o | o in obs :: o.uid.Some?
  }

  predicate AllAnswer(obs: seq<Observation>, uid: string) {
    forall o | o in obs && o.uid.Some? :: o.uid.value == uid
  }

  /** What the answers to pin from come to. */
  datatype Choice = Unanswered | Pin(uid: string) | Doubt(o: Observation)

  /** The answers agree on one UID. */
  ghost predicate Agreed(obs: seq<Observation>) {
    AnyAnswer(obs) && exists uid :: UidShaped(uid) && AllAnswer(obs, uid)
  }

  /** The first answer without the shape of a UID, or the first that differs from the first,
      rules the pin out. */
  method Choose(obs: seq<Observation>) returns (c: Choice)
    ensures c.Unanswered? <==> !AnyAnswer(obs)
    ensures c.Pin? <==> Agreed(obs)
    ensures c.Pin? ==> UidShaped(c.uid) && AllAnswer(obs, c.uid)
    ensures c.Doubt? ==> c.o in obs && c.o.uid.Some?
  {
    var answered: seq<Observation> := [];
    for i := 0 to |obs|
      invariant forall o | o in answered :: o in obs && o.uid.Some?
      invariant forall j | 0 <= j < i && obs[j].uid.Some? :: obs[j] in answered
    {
      if obs[i].uid.Some? {
        answered := answered + [obs[i]];
      }
    }
    if |answered| == 0 {
      return Unanswered;
    }
    var first := answered[0];
    assert first in obs;
    for i := 0 to |answered|
      invariant forall j | 0 <= j < i :: UidShaped(answered[j].uid.value)
    {
      if !UidShaped(answered[i].uid.value) {
        assert answered[i] in answered;
        return Doubt(answered[i]);
      }
    }
    for i := 1 to |answered|
      invariant forall j | 0 <= j < i :: answered[j].uid == first.uid
    {
      if answered[i].uid != first.uid {
        assert answered[i] in answered;
        return Doubt(answered[i]);
      }
    }
    assert forall o | o in obs && o.uid.Some? :: o in answered;
    return Pin(first.uid.value);
  }

  method MarkIdentityChecked(r: Reconciler)
    requires r.Valid()
    modifies r`trace, r`w, r`worlds, r`identityCheckedAt
    ensures r.Valid() && Still(old(r.w), r.w) && r.identityCheckedAt == Some(r.w.now) && old(r.trace) <= r.trace
  {
    var now := r.Now();
    r.identityCheckedAt := Some(now);
  }

  /** The pin is written. */
  method TakePin(r: Reconciler, uid: string) returns (res: PatchResult)
    requires r.Valid() && r.scope == IdentityOnly && r.kcp.pin == "" && !Frozen(r.kcp) && UidShaped(uid) && Answered(uid) in r.w.seen
    modifies r`trace, r`w, r`worlds, r`trouble, r`kcp, r`identityCheckedAt
    ensures r.Valid() && Still(old(r.w), r.w) && r.kcp == old(r.kcp).(rv := r.kcp.rv, pin := r.kcp.pin) && old(r.trace) <= r.trace
    ensures r.kcp.pin == if res == Patched then uid else ""
    ensures if res == Patched then r.identityCheckedAt == Some(r.w.now) else r.identityCheckedAt == old(r.identityCheckedAt)
    ensures r.trouble == (old(r.trouble) || res != Patched)
  {
    res := r.PatchKcp(SetPin(uid));
    if res == Patched {
      MarkIdentityChecked(r);
    }
  }

  /** pinWorkloadIdentity: a pin is taken only when something answered and every answer is that
      UID; answers that disagree, or have no UID's shape, freeze instead. Both happen, unless a
      write fails. */
  method PinWorkloadIdentity(r: Reconciler, vias: seq<string>) returns (gate: Gate, failed: bool, ghost obs: seq<Observation>)
    requires r.Valid() && r.scope == IdentityOnly && r.kcp.pin == "" && !Frozen(r.kcp)
    modifies r`trace, r`w, r`worlds, r`trouble, r`tried, r`kcp, r`identityCheckedAt
    ensures r.Valid() && Unread(old(r.w), r.w) && old(r.trace) <= r.trace
    ensures r.kcp == old(r.kcp).(rv := r.kcp.rv, pin := r.kcp.pin, mismatch := r.kcp.mismatch)
    ensures r.kcp.pin != "" ==> UidShaped(r.kcp.pin) && Agreed(obs) && AllAnswer(obs, r.kcp.pin) && !gate.hold && !failed && !Frozen(r.kcp)
    ensures AllSeen(r.w, obs) && |obs| == 1 + |vias| && OnlyThese(old(r.w), r.w, obs) && r.tried == old(r.tried) + [ENDPOINT] + vias
    ensures gate.frozen <==> AnyAnswer(obs) && !Agreed(obs)
    ensures NamesOther(r.kcp, obs) && (!r.trouble && gate.frozen ==> Frozen(r.kcp))
    ensures !r.trouble && Agreed(obs) ==> r.kcp.pin != ""
    ensures gate.hold || failed || r.kcp.pin != ""
    ensures (gate.frozen ==> gate.hold) && (failed ==> r.trouble) && (old(r.trouble) ==> r.trouble)
  {
    var seen := ObserveIdentity(r, vias);
    obs, failed, gate := seen, false, Gate(false, true);
    var choice := Choose(seen);
    if choice.Doubt? {
      Trip(r, choice.o.uid.value, choice.o.via);
      gate := Gate(true, true);
    } else if choice.Pin? {
      var res := TakePin(r, choice.uid);
      failed := res == PatchFailed;
      gate := Gate(false, res == Conflict);
    }
  }

  /** clearRepinnedIdentityFreeze. */
  method ClearRepinned(r: Reconciler) returns (res: PatchResult)
    requires r.Valid() && r.scope == IdentityOnly
    modifies r`trace, r`w, r`worlds, r`trouble, r`kcp, r`identityCheckedAt
    ensures r.Valid() && Still(old(r.w), r.w) && SameButMismatch(old(r.kcp), r.kcp) && old(r.trace) <= r.trace
    ensures old(r.kcp).mismatch.None? || Stuck(old(r.kcp)) ==>
              && res == Patched && r.kcp == old(r.kcp) && r.trace == old(r.trace) && r.w == old(r.w)
              && r.identityCheckedAt == old(r.identityCheckedAt)
    ensures Frozen(old(r.kcp)) && !Stuck(old(r.kcp)) ==> (res == Patched <==> !Frozen(r.kcp))
    ensures r.identityCheckedAt == if Frozen(old(r.kcp)) && !Frozen(r.kcp) then None else old(r.identityCheckedAt)
    ensures Frozen(old(r.kcp)) && !Frozen(r.kcp) ==> |old(r.trace)| < |r.trace| && r.trace[|r.trace| - 1] == ClearMismatch
    ensures r.trouble == (old(r.trouble) || res != Patched)
  {
    if r.kcp.mismatch.None? {
      return Patched;
    }
    var recorded := RecordedPin(r.kcp.mismatch.value);
    if recorded.None? || recorded.value == DisplayUID(r.kcp.pin) {
      return Patched;
    }
    res := r.PatchKcp(ClearMismatch);
    if res == Patched {
      r.identityCheckedAt := None;
    }
  }

  /** The first answer that is not the pin, and otherwise whether there was one. */
  method FirstOther(obs: seq<Observation>, pin: string) returns (other: Option<Observation>, answered: bool)
    ensures other.None? <==> AllAnswer(obs, pin)
    ensures other.Some? ==> other.value in obs && other.value.uid.Some? && other.value.uid.value != pin
    ensures other.None? ==> (answered <==> AnyAnswer(obs))
  {
    answered := false;
    for i := 0 to |obs|
      invariant AllAnswer(obs[..i], pin) && (answered <==> AnyAnswer(obs[..i]))
    {
      assert obs[..i + 1] == obs[..i] + [obs[i]];
      if obs[i].uid.Some? {
        answered := true;
        if obs[i].uid.value != pin {
          assert obs[i] in obs;
          return Some(obs[i]), true;
        }
      }
    }
    assert obs[..|obs|] == obs;
    return None, answered;
  }

  /** The recheck of a pinned cluster: the first answer that is not the pin freezes. */
  method Recheck(r: Reconciler, vias: seq<string>) returns (gate: Gate, ghost obs: seq<Observation>)
    requires r.Valid() && r.scope == IdentityOnly && r.kcp.pin != "" && !Frozen(r.kcp)
    modifies r`trace, r`w, r`worlds, r`trouble, r`tried, r`kcp, r`identityCheckedAt
    ensures r.Valid() && Unread(old(r.w), r.w) && SameButMismatch(old(r.kcp), r.kcp) && old(r.trace) <= r.trace
    ensures AllSeen(r.w, obs) && |obs| == 1 + |vias| && OnlyThese(old(r.w), r.w, obs) && r.tried == old(r.tried) + [ENDPOINT] + vias
    ensures gate == if AllAnswer(obs, r.kcp.pin) then Gate(false, false) else Gate(true, true)
    ensures AllAnswer(obs, r.kcp.pin) ==> r.kcp == old(r.kcp)
    ensures AllAnswer(obs, r.kcp.pin) ==>
              if AnyAnswer(obs) then r.identityCheckedAt.Some? && r.identityCheckedAt.value >= old(r.w).now
              else r.identityCheckedAt == old(r.identityCheckedAt)
    ensures !AllAnswer(obs, r.kcp.pin) ==> Frozen(r.kcp) || r.trouble
    ensures NamesOther(r.kcp, obs) && (old(r.trouble) ==> r.trouble)
  {
    var seen := ObserveIdentity(r, vias);
    obs := seen;
    var other, answered := FirstOther(seen, r.kcp.pin);
    gate := Gate(other.Some?, other.Some?);
    if other.Some? {
      Trip(r, other.value.uid.value, other.value.via);
    } else if answered {
      MarkIdentityChecked(r);
    }
  }

  /** The cluster must be asked now: a pin is due and can be taken, or the last check is a minute
      old. */
  ghost predicate Due(k: Kcp, machines: seq<Machine>, desired: int, checkedAt: Option<nat>, now: nat) {
    Applies(k, machines, desired) &&
    if k.pin == "" then k.kubeconfigReady else RecheckDue(checkedAt, now)
  }

  /** With no freeze in place: a pin that is due is taken, and one that stands is rechecked at
      most once a minute. */
  method CheckIdentity(r: Reconciler, vias: seq<string>, machines: seq<Machine>, desired: int)
    returns (gate: Gate, failed: bool, ghost obs: seq<Observation>)
    requires r.Valid() && r.scope == IdentityOnly && !Frozen(r.kcp)
    modifies r`trace, r`w, r`worlds, r`trouble, r`tried, r`kcp, r`identityCheckedAt
    ensures r.Valid() && Unread(old(r.w), r.w) && old(r.trace) <= r.trace
    ensures r.kcp == old(r.kcp).(rv := r.kcp.rv, pin := r.kcp.pin, mismatch := r.kcp.mismatch)
    ensures (gate.frozen ==> gate.hold) && AllSeen(r.w, obs) && OnlyThese(old(r.w), r.w, obs)
    ensures Due(old(r.kcp), machines, desired, old(r.identityCheckedAt), old(r.w).now) ==>
              |obs| == 1 + |vias| && r.tried == old(r.tried) + [ENDPOINT] + vias
    ensures !failed && !gate.hold ==> !Frozen(r.kcp)
    ensures !failed && !gate.hold ==> AllAnswer(obs, r.kcp.pin)
    ensures !failed && !gate.hold && Applies(r.kcp, machines, desired) ==> r.kcp.pin != ""
    ensures r.kcp.pin != old(r.kcp).pin ==>
              && old(r.kcp).pin == "" && UidShaped(r.kcp.pin) && AnyAnswer(obs) && AllAnswer(obs, r.kcp.pin)
              && Applies(old(r.kcp), machines, desired) && old(r.kcp).kubeconfigReady
    ensures old(r.kcp).pin != "" && !AllAnswer(obs, old(r.kcp).pin) ==> gate.frozen
    ensures old(r.kcp).pin == "" && AnyAnswer(obs) && !Agreed(obs) ==> gate.frozen
    ensures old(r.kcp).pin == "" && Agreed(obs) && !r.trouble ==> r.kcp.pin != ""
    ensures NamesOther(r.kcp, obs) && (r.kcp.pin != old(r.kcp).pin ==> !failed && !gate.hold)
    ensures if old(r.kcp).pin != "" then !failed && (AllAnswer(obs, old(r.kcp).pin) ==> !gate.hold)
            else !Applies(old(r.kcp), machines, desired) ==> !failed && !gate.hold && obs == []
    ensures (failed ==> r.trouble) && (gate.frozen ==> Frozen(r.kcp) || r.trouble) && (old(r.trouble) ==> r.trouble)
  {
    gate, failed, obs := Gate(false, false), false, [];
    var applies := IdentityApplies(r.kcp, machines, desired);
    if applies && r.kcp.pin == "" {
      gate := Gate(false, true);
      if r.kcp.kubeconfigReady {
        gate, failed, obs := PinWorkloadIdentity(r, vias);
      }
    } else if applies {
      gate, obs := RecheckIfDue(r, vias);
    }
  }

  predicate RecheckDue(checkedAt: Option<nat>, now: nat) {
    checkedAt.None? || now >= checkedAt.value + RECHECK_INTERVAL
  }

  /** The recheck of a pinned cluster, at most once a minute. */
  method RecheckIfDue(r: Reconciler, vias: seq<string>) returns (gate: Gate, ghost obs: seq<Observation>)
    requires r.Valid() && r.scope == IdentityOnly && r.kcp.pin != "" && !Frozen(r.kcp)
    modifies r`trace, r`w, r`worlds, r`trouble, r`tried, r`kcp, r`identityCheckedAt
    ensures r.Valid() && Unread(old(r.w), r.w) && SameButMismatch(old(r.kcp), r.kcp) && old(r.trace) <= r.trace
    ensures AllSeen(r.w, obs) && OnlyThese(old(r.w), r.w, obs)
    ensures RecheckDue(old(r.identityCheckedAt), old(r.w).now) ==> |obs| == 1 + |vias| && r.tried == old(r.tried) + [ENDPOINT] + vias
    ensures gate == if AllAnswer(obs, r.kcp.pin) then Gate(false, false) else Gate(true, true)
    ensures AllAnswer(obs, r.kcp.pin) ==> !Frozen(r.kcp)
    ensures !AllAnswer(obs, r.kcp.pin) ==> Frozen(r.kcp) || r.trouble
    ensures NamesOther(r.kcp, obs) && (old(r.trouble) ==> r.trouble)
  {
    gate, obs := Gate(false, false), [];
    var now := r.Now();
    if RecheckDue(r.identityCheckedAt, now) {
      gate, obs := Recheck(r, vias);
    }
  }

  /** A freeze whose pin was edited since is lifted. One that stands, or a patch that fails, closes the
      gate. */
  method LiftFreeze(r: Reconciler) returns (open: bool, gate: Gate, failed: bool)
    requires r.Valid() && r.scope == IdentityOnly
    modifies r`trace, r`w, r`worlds, r`trouble, r`kcp, r`identityCheckedAt
    ensures r.Valid() && Still(old(r.w), r.w) && SameButMismatch(old(r.kcp), r.kcp) && old(r.trace) <= r.trace
    ensures open ==> !Frozen(r.kcp)
    ensures old(r.kcp).mismatch.None? ==>
              open && r.kcp == old(r.kcp) && r.trace == old(r.trace) && r.identityCheckedAt == old(r.identityCheckedAt) && r.w == old(r.w)
    ensures Stuck(old(r.kcp)) ==> !open && gate == Gate(true, true) && !failed && r.kcp == old(r.kcp) && r.trace == old(r.trace)
    ensures Stuck(old(r.kcp)) ==> r.identityCheckedAt == None
    ensures open && Frozen(old(r.kcp)) ==> |old(r.trace)| < |r.trace| && r.trace[|r.trace| - 1] == ClearMismatch
    ensures !open ==> (failed || gate.hold) && (gate.frozen ==> gate.hold && Frozen(r.kcp)) && (failed ==> r.trouble)
    ensures old(r.trouble) ==> r.trouble
  {
    open, gate, failed := false, Gate(false, false), false;
    var res := ClearRepinned(r);
    if res != Patched {
      gate, failed := Gate(false, res == Conflict), res == PatchFailed;
    } else if Frozen(r.kcp) {
      ForgetIdentityCheck(r);
      gate := Gate(true, true);
    } else {
      open := true;
    }
  }

  /** There are answers, all of them one text of 1 to 64 letters, digits and dashes. */
  ghost predicate Unanimous(obs: seq<Observation>) {
    && (exists o | o in obs :: o.uid.Some?)
    && (forall o, p | o in obs && p in obs && o.uid.Some? && p.uid.Some? :: o.uid == p.uid)
    && (forall o | o in obs && o.uid.Some? ::
          && 1 <= |o.uid.value| <= 64
          && forall c | c in o.uid.value :: 'A' <= c <= 'Z' || 'a' <= c <= 'z' || '0' <= c <= '9' || c == '-')
  }

  lemma UnanimousAgrees(obs: seq<Observation>)
    ensures Unanimous(obs) ==> Agreed(obs)
  {
    if Unanimous(obs) {
      var o :| o in obs && o.uid.Some?;
      assert UidShaped(o.uid.value) && AllAnswer(obs, o.uid.value);
    }
  }

  /** reconcileWorkloadIdentity. Every path is asked when a pin is due and can be taken, or the last
      check of the one there is is a minute old. A pass goes on to membership actions only when no
      freeze stands, with a pin wherever etcd membership needs one, and when nothing that answered is
      another cluster; and it is stopped for nothing else. A pin is what every answer says; an answer
      that is not the pin, or answers that disagree, freeze. */
  method ReconcileWorkloadIdentity(r: Reconciler, vias: seq<string>, machines: seq<Machine>, desired: int)
    returns (gate: Gate, failed: bool, ghost obs: seq<Observation>)
    requires r.Valid()
    modifies r`trace, r`w, r`worlds, r`trouble, r`tried, r`base, r`began, r`scope, r`kcp, r`identityCheckedAt
    ensures r.Valid() && r.scope == IdentityOnly && r.base == old(r.trace) && r.began == old(r.w) && old(r.w).now <= r.w.now
    ensures r.kcp == old(r.kcp).(rv := r.kcp.rv, pin := r.kcp.pin, mismatch := r.kcp.mismatch) && (gate.frozen ==> gate.hold)
    ensures old(r.trace) + [NewPass] <= r.trace
    ensures forall f | f in r.w.seen && f.Answered? :: exists o | o in obs :: o.uid == Some(f.c)
    ensures forall f | f in r.w.seen :: !f.MemberIs?
    ensures AllSeen(r.w, obs)
    // when every path is asked
    ensures var k, at, now := old(r.kcp), old(r.identityCheckedAt), old(r.w).now;
            && (k.mismatch.None? && k.pin != "" && (at.None? || now >= at.value + 60) ==>
                  |obs| == 1 + |vias| && r.tried == old(r.tried) + [ENDPOINT] + vias)
            && (k.mismatch.None? && k.pin == "" && k.kubeconfigReady && (desired > 1 || |machines| > 1) &&
                (exists m | m in machines :: m.nodeRef.Some?) ==>
                  |obs| == 1 + |vias| && r.tried == old(r.tried) + [ENDPOINT] + vias)
    // what lets a pass through
    ensures !failed && !gate.hold ==>
              && r.kcp.mismatch.None?
              && (forall o | o in obs && o.uid.Some? :: o.uid.value == r.kcp.pin)
              && ((desired > 1 || |machines| > 1) && (exists m | m in machines :: m.nodeRef.Some?) ==> r.kcp.pin != "")
    ensures var k := old(r.kcp);
            && (k.mismatch.None? && k.pin != "" && (forall o | o in obs && o.uid.Some? :: o.uid.value == k.pin) ==> !failed && !gate.hold)
            && (k.mismatch.None? && k.pin == "" && !((desired > 1 || |machines| > 1) && exists m | m in machines :: m.nodeRef.Some?) ==>
                  !failed && !gate.hold)
    // what freezes, and what is pinned
    ensures Stuck(old(r.kcp)) ==>
              gate.frozen && !failed && r.kcp == old(r.kcp) && r.trace == old(r.trace) + [NewPass] && r.identityCheckedAt == None
    ensures old(r.kcp).pin != "" && (exists o | o in obs && o.uid.Some? :: o.uid.value != old(r.kcp).pin) ==> gate.frozen
    ensures old(r.kcp).pin == "" && (exists o, p | o in obs && p in obs && o.uid.Some? && p.uid.Some? :: o.uid != p.uid) ==> gate.frozen
    ensures r.kcp.pin != old(r.kcp).pin ==>
              && old(r.kcp).pin == "" && 1 <= |r.kcp.pin| <= 64
              && (forall c | c in r.kcp.pin :: 'A' <= c <= 'Z' || 'a' <= c <= 'z' || '0' <= c <= '9' || c == '-')
              && (exists o | o in obs :: o.uid.Some?) && (forall o | o in obs && o.uid.Some? :: o.uid.value == r.kcp.pin)
    ensures old(r.kcp).mismatch.None? && old(r.kcp).pin == "" && Unanimous(obs) && !r.trouble ==> r.kcp.pin != ""
    ensures r.kcp.pin != old(r.kcp).pin ==> !failed && !gate.hold
    ensures old(r.kcp).mismatch.None? ==> NamesOther(r.kcp, obs)
    ensures old(r.kcp).mismatch.Some? && !failed && !gate.hold ==>
              exists i | |old(r.trace)| < i < |r.trace| :: r.trace[i] == ClearMismatch
    ensures (failed ==> r.trouble) && (gate.frozen ==> Frozen(r.kcp) || r.trouble) && (old(r.trouble) ==> r.trouble)
  {
    r.Begin(IdentityOnly);
    obs := [];
    var open;
    open, gate, failed := LiftFreeze(r);
    if open {
      ghost var n := |r.trace|;
      gate, failed, obs := CheckIdentity(r, vias, machines, desired);
      assert r.trace[n - 1] == r.trace[..n][n - 1];
    }
    UnanimousAgrees(obs);
  }
}
