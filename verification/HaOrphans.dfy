/**
 The orphan etcd-member cleanup (internal/controllers/controlplane/ha_etcd_orphans.go): one
 pass, over the Machines it read and the KairosControlPlane snapshot.
*/
module HaOrphans {
  import opened Wrappers
  import opened EtcdTypes
  import StringOrder
  import opened OrphanMatching
  import opened HaWorld
  import opened HaRuns
  import opened HaApi
  import opened HaIdentity
  import opened HaLeave

  const ORPHAN_CHECK_INTERVAL := 60

  /** A pass goes on, holds every other membership change, or ends in an error. */
  datatype Outcome = GoOn | Hold | Fails(why: Fault)

  /** A Machine goes by the member's name, its Node's or the one it renders, or reports its address. */
  ghost predicate Claimed(x: EtcdMember, machines: seq<Machine>) {
    exists m | m in machines ::
      m.nodeRef == Some(x.name) || ToLower(m.hostname) == x.name || (x.peer.Some? && Some(x.peer.value) in m.addresses)
  }

  lemma ClaimedIff(x: EtcdMember, machines: seq<Machine>)
    ensures Claimed(x, machines) <==> !Unaccounted(machines, x)
  {
    if !Unaccounted(machines, x) {
      var m :| m in machines && (NamedBy(m, x.name) || (x.peer.Some? && Some(x.peer.value) in m.addresses));
    }
  }

  /** listJoinedEtcdMembers, of a list that was read. */
  method JoinedOnly(list: seq<EtcdMember>) returns (joined: seq<EtcdMember>)
    requires DistinctMembers(list)
    ensures DistinctMembers(joined) && forall e :: e in joined <==> e in list && !e.notJoined
  {
    joined := [];
    for i := 0 to |list|
      invariant DistinctMembers(joined) && forall e :: e in joined <==> e in list[..i] && !e.notJoined
    {
      assert list[..i + 1] == list[..i] + [list[i]];
      assert forall e | e in joined :: exists j | 0 <= j < i :: list[j] == e;
      if !list[i].notJoined {
        joined := joined + [list[i]];
      }
    }
    assert list[..|list|] == list;
  }

  /** An orphan that may be touched: nobody's, with a name that can be one and an ID. */
  method IsCandidate(expected: Expected, machines: seq<Machine>, e: EtcdMember) returns (b: bool)
    requires AccountsFor(expected, machines)
    ensures b <==> Unaccounted(machines, e) && Usable(e)
  {
    UnaccountedIsNotHad(expected, machines, e);
    b := !Has(expected, e) && IsSubdomain(e.name) && e.id.Some?;
  }

  /** The orphans among the joined members, and of those that may be touched the first by name. */
  method FirstOrphan(machines: seq<Machine>, joined: seq<EtcdMember>) returns (target: Option<EtcdMember>)
    ensures target.None? ==> forall e | e in joined && Unaccounted(machines, e) :: !Usable(e)
    ensures target.Some? ==> target.value in joined && IsFirst(machines, joined, target.value)
  {
    var expected := ExpectedEtcdMembers(machines);
    target := None;
    for i := 0 to |joined|
      invariant FirstSoFar(machines, joined[..i], target)
    {
      var e := joined[i];
      var candidate := IsCandidate(expected, machines, e);
      FirstNext(machines, joined[..i], target, e);
      assert joined[..i + 1] == joined[..i] + [e];
      if candidate && (target.None? || StringOrder.Less(e.name, target.value.name)) {
        target := Some(e);
      }
    }
    assert joined[..|joined|] == joined;
  }

  ghost predicate FirstSoFar(machines: seq<Machine>, joined: seq<EtcdMember>, target: Option<EtcdMember>) {
    if target.None? then forall e | e in joined && Unaccounted(machines, e) :: !Usable(e)
    else target.value in joined && IsFirst(machines, joined, target.value)
  }

  /** An orphan that may be touched, and none before it by name is. */
  ghost predicate IsFirst(machines: seq<Machine>, joined: seq<EtcdMember>, target: EtcdMember) {
    && Unaccounted(machines, target) && Usable(target)
    && forall e | e in joined && Unaccounted(machines, e) && Usable(e) :: !StringOrder.Less(e.name, target.name)
  }

  lemma FirstMoves(machines: seq<Machine>, seen: seq<EtcdMember>, was: Option<EtcdMember>, e: EtcdMember)
    requires Unaccounted(machines, e) && Usable(e)
    requires was.None? ==> forall x | x in seen && Unaccounted(machines, x) :: !Usable(x)
    requires was.Some? ==> IsFirst(machines, seen, was.value) && StringOrder.Less(e.name, was.value.name)
    ensures IsFirst(machines, seen + [e], e)
  {
    StringOrder.LessIrreflexive(e.name);
    forall x | x in seen && Unaccounted(machines, x) && Usable(x)
      ensures !StringOrder.Less(x.name, e.name)
    {
      if StringOrder.Less(x.name, e.name) {
        StringOrder.LessTransitive(x.name, e.name, was.value.name);
      }
    }
  }

  /** One member more. */
  lemma FirstNext(machines: seq<Machine>, seen: seq<EtcdMember>, target: Option<EtcdMember>, e: EtcdMember)
    requires FirstSoFar(machines, seen, target)
    ensures var better := Unaccounted(machines, e) && Usable(e) && (target.None? || StringOrder.Less(e.name, target.value.name));
            FirstSoFar(machines, seen + [e], if better then Some(e) else target)
  {
    if Unaccounted(machines, e) && Usable(e) && (target.None? || StringOrder.Less(e.name, target.value.name)) {
      FirstMoves(machines, seen, target, e);
      assert e in seen + [e];
    } else if target.Some? {
      StringOrder.LessIrreflexive(target.value.name);
    }
  }

  /** Every Machine's node reports healthy and voting. */
  ghost predicate AllVote(machines: seq<Machine>, status: Reports) {
    forall m | m in machines ::
      var node := if m.nodeRef.Some? then m.nodeRef.value else "";
      node in status && status[node].healthy && status[node].voting
  }

  method HaveAllVoted(machines: seq<Machine>, status: Reports) returns (b: bool)
    ensures b <==> AllVote(machines, status)
  {
    for i := 0 to |machines|
      invariant AllVote(machines[..i], status)
    {
      assert machines[..i + 1] == machines[..i] + [machines[i]];
      if !Votes(status, machines[i].nodeRef.GetOr("")) {
        assert machines[i] in machines;
        return false;
      }
    }
    assert machines[..|machines|] == machines;
    return true;
  }

  ghost predicate Deleting(machines: seq<Machine>) {
    exists m | m in machines :: m.deleting
  }

  method AnyDeleting(machines: seq<Machine>) returns (b: bool)
    ensures b <==> Deleting(machines)
  {
    for i := 0 to |machines|
      invariant !Deleting(machines[..i])
    {
      assert machines[..i + 1] == machines[..i] + [machines[i]];
      if machines[i].deleting {
        assert machines[i] in machines;
        return true;
      }
    }
    assert machines[..|machines|] == machines;
    return false;
  }

  /** The checks that rest on what the pass read. */
  ghost function Checks(w: World): iset<Check> {
    iset check | Judged(w, check)
  }

  lemma CheckStays(w: World, w': World, check: Check)
    requires check in Checks(w) && Quiet(w, w')
    ensures check in Checks(w')
  {
  }

  ghost function SafeTargets(check: Check): iset<EtcdMember> {
    iset e: EtcdMember | SafeToRemove(check, e)
  }

  lemma RecordIsOk(w: World, k: Kcp, rec: OrphanRecord, target: EtcdMember, check: Check)
    requires !Frozen(k) && k.record.None? && Usable(target) && target in SafeTargets(check)
    requires rec.Record? && rec.name == target.name && target.id == Some(rec.id)
    requires check in Checks(w) && w.passAt <= rec.at <= w.now
    ensures KcpWriteOk(k, SetRecord(rec, check)) && Basis(w, k.pin, SetRecord(rec, check)) && OnRecord(Some(rec), target)
  {
    assert OnRecord(Some(rec), target);
  }

  method ForgetOrphanCheck(r: Reconciler)
    requires r.Valid()
    modifies r`orphanCheckedAt
    ensures r.Valid() && r.orphanCheckedAt == None
  {
    r.orphanCheckedAt := None;
  }

  /** The record of a removal. A check whose record failed may be made again at once. */
  method RecordRemoval(r: Reconciler, target: EtcdMember, check: Check) returns (res: PatchResult)
    requires r.Valid() && r.scope == OrphanRemoval && !Frozen(r.kcp) && r.kcp.record.None?
    requires Usable(target) && target in SafeTargets(check) && check in Checks(r.w)
    modifies r`trace, r`w, r`worlds, r`trouble, r`kcp, r`orphanCheckedAt
    ensures r.Valid() && Still(old(r.w), r.w) && r.kcp == old(r.kcp).(rv := r.kcp.rv, record := r.kcp.record)
    ensures res == Patched <==> r.kcp.record.Some?
    ensures r.kcp.record.Some? ==> OnRecord(r.kcp.record, target) && old(r.w).now <= r.kcp.record.value.at <= r.w.now
    ensures old(r.trace) <= r.trace && (res == Patched ==> r.orphanCheckedAt == old(r.orphanCheckedAt))
    ensures res != Patched ==> r.orphanCheckedAt == None
    ensures r.trouble == (old(r.trouble) || res != Patched)
  {
    ghost var was := r.w;
    var now := r.Now();
    var rec := Record(target.name, target.id.value, now);
    CheckStays(was, r.w, check);
    res := PatchRecord(r, rec, target, check);
    if res != Patched {
      ForgetOrphanCheck(r);
    }
  }

  method PatchRecord(r: Reconciler, rec: OrphanRecord, target: EtcdMember, check: Check) returns (res: PatchResult)
    requires r.Valid() && r.scope == OrphanRemoval && !Frozen(r.kcp) && r.kcp.record.None?
    requires Usable(target) && target in SafeTargets(check) && check in Checks(r.w)
    requires rec.Record? && rec.name == target.name && target.id == Some(rec.id) && r.w.passAt <= rec.at <= r.w.now
    modifies r`trace, r`w, r`worlds, r`trouble, r`kcp
    ensures r.Valid() && Still(old(r.w), r.w) && r.kcp == old(r.kcp).(rv := r.kcp.rv, record := r.kcp.record)
    ensures r.kcp.record == (if res == Patched then Some(rec) else None) && old(r.trace) <= r.trace
    ensures r.trouble == (old(r.trouble) || res != Patched)
  {
    RecordIsOk(r.w, r.kcp, rec, target, check);
    res := r.PatchKcp(SetRecord(rec, check));
  }

  /** The last thing done was to set spec.leave on that orphan. */
  ghost predicate AskedToLeave(trace: seq<Event>, c: string, name: string) {
    trace != [] &&
    var e := trace[|trace| - 1];
    e.SetLeave? && e.c == c && e.name == name && e.leave && e.purpose.ForOrphan?
  }

  lemma OrphanCanBeAsked(w: World, m: Machine, k: Kcp, s: Scope, c: string, member: EtcdMember, check: Check)
    requires (s == OrphanRemoval || s == OrphanFollowed) && OnPin(w, k.pin, c) && ReadMember(w.seen, c, member)
    requires OnRecord(k.record, member) && check in Checks(w) && check.cluster == c
    requires member in SafeTargets(check) || Replaced(c, member) in w.seen
    ensures Leaving(c, member, true, ForOrphan(check, k.record.value)) in Askable(w, k, m, s)
  {
  }

  /** spec.leave on the member on record, on a safe check. A member that the check does not have was
      replaced since it was read, and the write will not reach it. */
  method Ask(r: Reconciler, client: Client, member: EtcdMember, check: Check)
    requires r.Valid() && (r.scope == OrphanRemoval || r.scope == OrphanFollowed)
    requires OnPin(r.w, r.kcp.pin, client.cluster) && ReadMember(r.w.seen, r.kcp.pin, member)
    requires OnRecord(r.kcp.record, member) && check in Checks(r.w) && check.cluster == r.kcp.pin
    requires member in SafeTargets(check) || Replaced(r.kcp.pin, member) in r.w.seen
    modifies r`trace, r`w, r`worlds, r`trouble
    ensures r.Valid() && Still(old(r.w), r.w) && old(r.trace) <= r.trace && (old(r.trouble) ==> r.trouble)
    ensures !r.trouble ==> AskedToLeave(r.trace, r.kcp.pin, member.name)
  {
    var purpose := ForOrphan(check, r.kcp.record.value);
    OrphanCanBeAsked(r.w, r.target, r.kcp, r.scope, client.cluster, member, check);
    var _ := r.PatchLeave(client, member, true, purpose);
  }

  /** A removal recorded between two moments is dated so. */
  ghost predicate Dated(record: Option<OrphanRecord>, lo: nat, hi: nat) {
    record.Some? ==> record.value.Record? && lo <= record.value.at <= hi
  }

  /** The first removal of an orphan: the record first, so that a crash before the second write
      is still tracked, then spec.leave. */
  method RecordAndAsk(r: Reconciler, client: Client, target: EtcdMember, check: Check) returns (out: Outcome)
    requires r.Valid() && r.scope == OrphanRemoval && !Frozen(r.kcp) && r.kcp.record.None?
    requires OnPin(r.w, r.kcp.pin, client.cluster) && ReadMember(r.w.seen, r.kcp.pin, target)
    requires Usable(target) && target in SafeTargets(check) && check in Checks(r.w) && check.cluster == r.kcp.pin
    modifies r`trace, r`w, r`worlds, r`trouble, r`kcp, r`orphanCheckedAt
    ensures r.Valid() && out != GoOn && Still(old(r.w), r.w) && old(r.trace) <= r.trace && check in Checks(r.w)
    ensures Dated(r.kcp.record, old(r.w).now, r.w.now) && r.orphanCheckedAt == if r.kcp.record.Some? then old(r.orphanCheckedAt) else None
    ensures r.kcp.pin == old(r.kcp).pin
    ensures r.kcp.record.Some? ==> out == Hold && OnRecord(r.kcp.record, target)
    ensures r.kcp.record.None? ==> r.trouble
    ensures !r.trouble ==> AskedToLeave(r.trace, r.kcp.pin, target.name)
    ensures old(r.trouble) ==> r.trouble
    ensures out.Fails? ==> r.trouble
  {
    ghost var was := r.w;
    var res := RecordRemoval(r, target, check);
    CheckStays(was, r.w, check);
    out := if res == PatchFailed then Fails(WriteFailed) else Hold;
    if res == Patched {
      was := r.w;
      Ask(r, client, target, check);
      CheckStays(was, r.w, check);
    }
  }

  /** What was decided on a check of the members and reports that the pass read: a record is of the
      first orphan by name, and safe; and where nothing failed, spec.leave was set on it, and no
      record means that the first orphan's removal is blocked, or that there is none. */
  ghost predicate Decided(check: Option<Check>, k: Kcp, machines: seq<Machine>, w: World, trace: seq<Event>, trouble: bool) {
    && (check.Some? ==> check.value in Checks(w) && check.value.cluster == k.pin && check.value.machines == machines)
    && (k.record.Some? ==> check.Some? && exists e ::
          OnRecord(k.record, e) && IsFirst(machines, check.value.joined, e) && e in SafeTargets(check.value))
    && (k.record.Some? && !trouble ==> AskedToLeave(trace, k.pin, RecordName(k.record.value)))
    && (k.record.None? && check.Some? && !trouble ==> forall e | e in check.value.joined && IsFirst(machines, check.value.joined, e) ::
          Blocked(machines, check.value.joined, e.name, check.value.status, check.value.desired))
  }

  /** Why no check is made, without anything having failed: there is no pin, the cluster has no
      EtcdMember API, or a Machine is not reported healthy and voting. */
  ghost predicate Excused(w: World, pin: string, machines: seq<Machine>) {
    || pin == "" || NoMemberAPI(pin) in w.seen
    || exists reports :: ReportsAre(reports) in w.seen && !AllVote(machines, reports)
  }

  /** The members were judged, or there is such a reason; a call that failed, or a freeze that came
      up, is one too. */
  ghost predicate Tried(check: Option<Check>, k: Kcp, machines: seq<Machine>, w: World, trouble: bool) {
    check.Some? || trouble || Frozen(k) || Excused(w, k.pin, machines)
  }

  lemma FirstIsUnique(machines: seq<Machine>, joined: seq<EtcdMember>, a: EtcdMember, b: EtcdMember)
    requires a in joined && b in joined && IsFirst(machines, joined, a) && IsFirst(machines, joined, b)
    ensures a.name == b.name
  {
    StringOrder.LessTotal(a.name, b.name);
  }

  lemma UnblockedIsSafe(check: Check, member: EtcdMember)
    requires DistinctMachines(check.machines) && DistinctMembers(check.joined) && !Deleting(check.machines)
    requires member in check.joined && Unaccounted(check.machines, member)
    requires !Blocked(check.machines, check.joined, member.name, check.status, check.desired)
    ensures member in SafeTargets(check)
  {
  }

  lemma ListJudged(w: World, check: Check, list: seq<EtcdMember>)
    requires OnPin(w, check.cluster, check.cluster) && check.cluster in w.pins
    requires MembersAre(check.cluster, list) in w.seen && ReportsAre(check.status) in w.seen
    requires forall e :: e in check.joined <==> e in list && !e.notJoined
    ensures check in Checks(w) && forall e | e in check.joined :: ReadMember(w.seen, check.cluster, e)
  {
  }

  /** The members were listed: what is orphaned, and whether the first of it may go. */
  method RemoveFirst(r: Reconciler, machines: seq<Machine>, client: Client, list: seq<EtcdMember>, status: Reports, desired: int)
    returns (out: Outcome, ghost check: Option<Check>)
    requires r.Valid() && r.scope == OrphanRemoval && !Frozen(r.kcp) && r.kcp.record.None?
    requires OnPin(r.w, r.kcp.pin, client.cluster) && DistinctMachines(machines) && !Deleting(machines) && DistinctMembers(list)
    requires MembersAre(r.kcp.pin, list) in r.w.seen && ReportsAre(status) in r.w.seen
    modifies r`trace, r`w, r`worlds, r`trouble, r`kcp, r`orphanCheckedAt
    ensures r.Valid() && Still(old(r.w), r.w) && old(r.trace) <= r.trace
    ensures Dated(r.kcp.record, old(r.w).now, r.w.now)
    ensures r.orphanCheckedAt == if out == GoOn || r.kcp.record.Some? then old(r.orphanCheckedAt) else None
    ensures check.Some? && Decided(check, r.kcp, machines, r.w, r.trace, r.trouble)
    ensures forall e :: e in check.value.joined <==> e in list && !e.notJoined
    ensures r.kcp.record.Some? ==> out == Hold
    ensures r.kcp.pin == old(r.kcp).pin && (out == GoOn ==> r.kcp == old(r.kcp))
    ensures old(r.trouble) ==> r.trouble
    ensures out.Fails? ==> r.trouble
    ensures check.Some? ==> check.value.status == status && check.value.desired == desired
  {
    var joined := JoinedOnly(list);
    var made := Check(client.cluster, machines, joined, status, desired);
    PinStands(r.Story());
    ListJudged(r.w, made, list);
    check, out := Some(made), GoOn;
    var target := FirstOrphan(machines, joined);
    if target.Some? {
      out := RemoveTarget(r, client, target.value, made);
    }
  }

  /** The first orphan goes, unless its removal is blocked. */
  method RemoveTarget(r: Reconciler, client: Client, target: EtcdMember, check: Check) returns (out: Outcome)
    requires r.Valid() && r.scope == OrphanRemoval && !Frozen(r.kcp) && r.kcp.record.None?
    requires OnPin(r.w, r.kcp.pin, client.cluster) && check in Checks(r.w) && check.cluster == r.kcp.pin
    requires DistinctMachines(check.machines) && !Deleting(check.machines) && DistinctMembers(check.joined)
    requires target in check.joined && ReadMember(r.w.seen, r.kcp.pin, target) && IsFirst(check.machines, check.joined, target)
    modifies r`trace, r`w, r`worlds, r`trouble, r`kcp, r`orphanCheckedAt
    ensures r.Valid() && Still(old(r.w), r.w) && old(r.trace) <= r.trace
    ensures Dated(r.kcp.record, old(r.w).now, r.w.now)
    ensures r.orphanCheckedAt == if out == GoOn || r.kcp.record.Some? then old(r.orphanCheckedAt) else None
    ensures Decided(Some(check), r.kcp, check.machines, r.w, r.trace, r.trouble)
    ensures r.kcp.record.Some? ==> out == Hold
    ensures r.kcp.pin == old(r.kcp).pin && (out == GoOn ==> r.kcp == old(r.kcp))
    ensures old(r.trouble) ==> r.trouble
    ensures out.Fails? ==> r.trouble
  {
    out := GoOn;
    var blocked := OrphanRemovalBlocked(check.machines, check.joined, target, check.status, check.desired);
    if blocked {
      forall e | e in check.joined && IsFirst(check.machines, check.joined, e)
        ensures e.name == target.name
      {
        FirstIsUnique(check.machines, check.joined, e, target);
      }
    } else {
      UnblockedIsSafe(check, target);
      out := RecordAndAsk(r, client, target, check);
    }
  }

  /** Where there is an orphan that may be touched, one is the first. */
  lemma {:induction false} FirstExists(machines: seq<Machine>, joined: seq<EtcdMember>) returns (first: Option<EtcdMember>)
    ensures first.None? ==> forall e | e in joined && Unaccounted(machines, e) :: !Usable(e)
    ensures first.Some? ==> first.value in joined && IsFirst(machines, joined, first.value)
  {
    first := None;
    if joined != [] {
      var init, e := joined[..|joined| - 1], joined[|joined| - 1];
      assert joined == init + [e];
      first := FirstExists(machines, init);
      if Unaccounted(machines, e) && Usable(e) && (first.None? || StringOrder.Less(e.name, first.value.name)) {
        FirstMoves(machines, init, first, e);
        first := Some(e);
      } else if first.Some? {
        StringOrder.LessIrreflexive(first.value.name);
      }
    }
  }

  /** A pass of ReconcileOrphanEtcdMembers in which a check was due and nothing failed is a round of
      the cleanup, on a steady control plane of the desired size: unless it had a reason to make no
      check, it judged the members the pinned cluster listed, and asked a member to leave whose
      removal is such a round exactly when there is a round to take. */
  lemma PassIsARound(check: Option<Check>, k: Kcp, machines: seq<Machine>, w: World, trace: seq<Event>)
    requires Decided(check, k, machines, w, trace, false) && Tried(check, k, machines, w, false) && !Frozen(k)
    requires check.Some? ==> Steady(machines, check.value.joined, check.value.status) && check.value.desired == |machines| > 0
    ensures Excused(w, k.pin, machines) || (check.Some? && check.value in Checks(w) && check.value.cluster == k.pin)
    ensures check.Some? ==> (k.record.Some? <==> CanGoOn(machines, check.value.joined, check.value.status))
    ensures k.record.Some? ==>
              && check.Some? && AskedToLeave(trace, k.pin, RecordName(k.record.value))
              && Round(machines, check.value.joined, Without(check.value.joined, RecordName(k.record.value)), check.value.status)
  {
    if check.None? {
      return;
    }
    var joined, status := check.value.joined, check.value.status;
    if k.record.Some? {
      var e :| OnRecord(k.record, e) && IsFirst(machines, joined, e) && e in SafeTargets(check.value);
      assert Removable(machines, joined, status, e);
    } else if CanGoOn(machines, joined, status) {
      var t :| Removable(machines, joined, status, t);
      var first := FirstExists(machines, joined);
      SteadyBlockedIff(machines, joined, t, status);
      SteadyBlockedIff(machines, joined, first.value, status);
      assert false;
    }
  }

  method MarkOrphanChecked(r: Reconciler)
    requires r.Valid()
    modifies r`trace, r`w, r`worlds, r`orphanCheckedAt
    ensures r.Valid() && Still(old(r.w), r.w) && r.orphanCheckedAt == Some(r.w.now) && old(r.trace) <= r.trace
  {
    var now := r.Now();
    r.orphanCheckedAt := Some(now);
  }

  predicate Between(at: Option<nat>, lo: nat, hi: nat) {
    at.Some? && lo <= at.value <= hi
  }

  /** A check that was made is remembered with its time, unless its record failed: then it may be made
      again at once. The lack of an EtcdMember API is remembered too, and nothing else is. */
  ghost predicate CheckNoted(check: Option<Check>, k: Kcp, w: World, out: Outcome, was: Option<nat>, at: Option<nat>, lo: nat) {
    if check.None? then at == was || (NoMemberAPI(k.pin) in w.seen && Between(at, lo, w.now))
    else if out == GoOn || k.record.Some? then Between(at, lo, w.now)
    else at.None?
  }

  /** A list, or the lack of an EtcdMember API, is an answer, and marks the check done. */
  method ListAndRemove(r: Reconciler, machines: seq<Machine>, client: Client, status: Reports, desired: int)
    returns (out: Outcome, ghost check: Option<Check>)
    requires r.Valid() && r.scope == OrphanRemoval && !Frozen(r.kcp) && r.kcp.record.None?
    requires OnPin(r.w, r.kcp.pin, client.cluster) && DistinctMachines(machines) && !Deleting(machines)
    requires ReportsAre(status) in r.w.seen
    modifies r`trace, r`w, r`worlds, r`trouble, r`kcp, r`orphanCheckedAt
    ensures r.Valid() && Still(old(r.w), r.w) && old(r.trace) <= r.trace && Dated(r.kcp.record, old(r.w).now, r.w.now)
    ensures Decided(check, r.kcp, machines, r.w, r.trace, r.trouble)
    ensures r.kcp.record.Some? ==> out == Hold
    ensures r.kcp.pin == old(r.kcp).pin && (out == GoOn ==> r.kcp == old(r.kcp))
    ensures old(r.trouble) ==> r.trouble
    ensures out.Fails? ==> r.trouble
    ensures check.Some? ==> check.value.status == status && check.value.desired == desired
    ensures Tried(check, r.kcp, machines, r.w, r.trouble)
    ensures CheckNoted(check, r.kcp, r.w, out, old(r.orphanCheckedAt), r.orphanCheckedAt, old(r.w).now)
    ensures check.None? && !r.trouble ==> Between(r.orphanCheckedAt, old(r.w).now, r.w.now)
  {
    out, check := GoOn, None;
    var read := r.ListMembers(client);
    if read != ReadFailed {
      MarkOrphanChecked(r);
      if read.Found? {
        out, check := RemoveFirst(r, machines, client, read.value, status, desired);
      }
    }
  }

  /** Where every Machine is reported healthy and voting, the members are looked for through every
      path, until the pinned cluster answers or another does. */
  ghost predicate Pursued(w: World, pin: string, machines: seq<Machine>, was: seq<string>, tried: seq<string>, vias: seq<string>, out: Outcome) {
    pin != "" && out != Fails(IdentityChanged) && Answered(pin) !in w.seen && (exists reports :: ReportsAre(reports) in w.seen && AllVote(machines, reports)) ==>
      tried == was + vias + [ENDPOINT]
  }

  /** No reports were read yet. */
  ghost predicate NoneReported(w: World) {
    forall f | f in w.seen :: !f.ReportsAre?
  }

  /** removeOneOrphan: only while every Machine's node reports healthy and voting, through the
      pinned cluster, and the first orphan by name. */
  method RemoveOneOrphan(r: Reconciler, machines: seq<Machine>, vias: seq<string>, desired: int)
    returns (out: Outcome, ghost check: Option<Check>)
    requires r.Valid() && r.scope == OrphanRemoval && !Frozen(r.kcp) && r.kcp.record.None?
    requires DistinctMachines(machines) && !Deleting(machines) && NoneReported(r.w)
    modifies r`trace, r`w, r`worlds, r`trouble, r`tried, r`kcp, r`identityCheckedAt, r`orphanCheckedAt
    ensures r.Valid() && Unread(old(r.w), r.w) && old(r.tried) <= r.tried && old(r.trace) <= r.trace && Dated(r.kcp.record, old(r.w).now, r.w.now)
    ensures Pursued(r.w, r.kcp.pin, machines, old(r.tried), r.tried, vias, out)
    ensures Decided(check, r.kcp, machines, r.w, r.trace, r.trouble)
    ensures check.Some? ==> AllVote(machines, check.value.status)
    ensures r.kcp.record.Some? ==> out == Hold
    ensures r.kcp.pin == old(r.kcp).pin && (out == GoOn ==> r.kcp == old(r.kcp))
    ensures out.Fails? ==> r.trouble || Frozen(r.kcp)
    ensures old(r.trouble) ==> r.trouble
    ensures check.Some? ==> check.value.desired == desired
    ensures Tried(check, r.kcp, machines, r.w, r.trouble)
    ensures CheckNoted(check, r.kcp, r.w, out, old(r.orphanCheckedAt), r.orphanCheckedAt, old(r.w).now)
    ensures check.None? && !r.trouble && !Frozen(r.kcp) && r.kcp.pin != "" && (forall reports | ReportsAre(reports) in r.w.seen :: AllVote(machines, reports)) ==>
              Between(r.orphanCheckedAt, old(r.w).now, r.w.now)
  {
    check, out := None, Fails(Silent);
    var status := r.ReadStatus();
    if status.Some? {
      out := GoOn;
      var voted := HaveAllVoted(machines, status.value);
      if voted {
        out, check := RemoveThrough(r, machines, vias, status.value, desired);
      }
    }
  }

  /** The part that talks to the workload cluster. */
  method RemoveThrough(r: Reconciler, machines: seq<Machine>, vias: seq<string>, status: Reports, desired: int)
    returns (out: Outcome, ghost check: Option<Check>)
    requires r.Valid() && r.scope == OrphanRemoval && !Frozen(r.kcp) && r.kcp.record.None?
    requires DistinctMachines(machines) && !Deleting(machines) && ReportsAre(status) in r.w.seen
    modifies r`trace, r`w, r`worlds, r`trouble, r`tried, r`kcp, r`identityCheckedAt, r`orphanCheckedAt
    ensures r.Valid() && Unread(old(r.w), r.w) && old(r.tried) <= r.tried && old(r.trace) <= r.trace && Dated(r.kcp.record, old(r.w).now, r.w.now)
    ensures Pursued(r.w, r.kcp.pin, machines, old(r.tried), r.tried, vias, out)
    ensures Decided(check, r.kcp, machines, r.w, r.trace, r.trouble)
    ensures check.Some? ==> check.value.status == status && check.value.desired == desired
    ensures r.kcp.record.Some? ==> out == Hold
    ensures r.kcp.pin == old(r.kcp).pin && (out == GoOn ==> r.kcp == old(r.kcp))
    ensures (out.Fails? ==> r.trouble || Frozen(r.kcp)) && (old(r.trouble) ==> r.trouble)
    ensures Tried(check, r.kcp, machines, r.w, r.trouble)
    ensures CheckNoted(check, r.kcp, r.w, out, old(r.orphanCheckedAt), r.orphanCheckedAt, old(r.w).now)
    ensures check.None? && !r.trouble && !Frozen(r.kcp) && r.kcp.pin != "" ==> Between(r.orphanCheckedAt, old(r.w).now, r.w.now)
  {
    check, out := None, GoOn;
    var conn := Connect(r, vias, false);
    if conn == Foreign {
      out := Fails(IdentityChanged);
    } else if conn.Connected? {
      out, check := ListAndRemove(r, machines, conn.client, status, desired);
    }
  }

  // ---- a removal on record ----

  /** The record ends. A snapshot that is not current holds and tries again. */
  method Finish(r: Reconciler) returns (out: Outcome)
    requires r.Valid() && (r.scope == OrphanFollowed || r.scope == OrphanForgotten) && !Frozen(r.kcp) && r.kcp.record.Some?
    modifies r`trace, r`w, r`worlds, r`trouble, r`kcp
    ensures r.Valid() && Still(old(r.w), r.w) && old(r.trace) <= r.trace
    ensures out == GoOn ==> |old(r.trace)| < |r.trace| && r.trace[|r.trace| - 1] == ClearRecord
    ensures out != Fails(IdentityChanged) && (out == GoOn <==> r.kcp.record.None?)
    ensures r.kcp.pin == old(r.kcp).pin && (out != GoOn ==> r.kcp == old(r.kcp))
    ensures r.trouble == (old(r.trouble) || out != GoOn)
  {
    var res := r.PatchKcp(ClearRecord);
    out := if res == Patched then GoOn else if res == Conflict then Hold else Fails(WriteFailed);
  }

  /** A pass that follows the removal of the member on record. */
  ghost predicate Following(r: Reconciler)
    reads r
  {
    r.scope == OrphanFollowed && !Frozen(r.kcp) && OnPin(r.w, r.kcp.pin, r.kcp.pin) && r.kcp.record.Some?
  }

  /** What a removal is judged on now; None while a Machine is being deleted or a read fails. A
      member read before is in the list, or was replaced. */
  method MakeCheck(r: Reconciler, machines: seq<Machine>, client: Client, member: EtcdMember, desired: int) returns (check: Option<Check>)
    requires r.Valid() && DistinctMachines(machines) && OnPin(r.w, r.kcp.pin, client.cluster)
    requires ReadMember(r.w.seen, r.kcp.pin, member) && !member.notJoined
    modifies r`trace, r`w, r`worlds, r`trouble
    ensures r.Valid() && Still(old(r.w), r.w) && old(r.trace) <= r.trace && (old(r.trouble) ==> r.trouble)
    ensures check.Some? ==>
              && check.value in Checks(r.w) && check.value.cluster == r.kcp.pin && DistinctMembers(check.value.joined)
              && check.value.machines == machines && check.value.desired == desired && !Deleting(machines)
              && (member in check.value.joined || Replaced(r.kcp.pin, member) in r.w.seen)
    ensures check.None? && !r.trouble ==> Deleting(machines) || NoMemberAPI(r.kcp.pin) in r.w.seen
  {
    check := None;
    var read := r.ListMembers(client);
    if read.Found? && member !in read.value {
      r.See(Replaced(client.cluster, member));
    }
    var status := r.ReadStatus();
    var deleting := AnyDeleting(machines);
    if !deleting && read.Found? && status.Some? {
      var joined := JoinedOnly(read.value);
      var made := Check(client.cluster, machines, joined, status.value, desired);
      PinStands(r.Story());
      ListJudged(r.w, made, read.value);
      check := Some(made);
    }
  }

  /** Why spec.leave is not written yet: a Machine is being deleted, there is no EtcdMember API, or the
      removal is blocked on a check of this pass. */
  ghost predicate NotYet(w: World, c: string, machines: seq<Machine>, name: string, desired: int) {
    || Deleting(machines) || NoMemberAPI(c) in w.seen
    || exists check ::
         && check in Checks(w) && check.cluster == c && check.machines == machines && check.desired == desired
         && DistinctMembers(check.joined) && Blocked(machines, check.joined, name, check.status, desired)
  }

  /** The recorded member was read, is still in etcd and nobody's, and was asked to leave, now or
      before, or there is a reason not to ask yet. */
  ghost predicate Waiting(w: World, k: Kcp, machines: seq<Machine>, desired: int, trace: seq<Event>) {
    exists m :: MemberIs(k.pin, m) in w.seen && OnRecord(k.record, m) && !m.notJoined && !Claimed(m, machines) &&
                (m.leave || AskedToLeave(trace, k.pin, m.name) || NotYet(w, k.pin, machines, m.name, desired))
  }

  /** The removal is over: the member is gone, out of etcd, another one by now, or some Machine's. */
  ghost predicate Over(w: World, c: string, record: OrphanRecord, machines: seq<Machine>)
    requires record.Record?
  {
    || NoMember(c, record.name) in w.seen || NoMemberAPI(c) in w.seen
    || exists m :: MemberIs(c, m) in w.seen && m.name == record.name &&
                   (m.id != Some(record.id) || m.notJoined || Claimed(m, machines))
  }

  ghost predicate Capped(record: OrphanRecord, now: nat) {
    record.Record? && now > record.at + 600
  }

  /** The request to leave is taken back, on the member of that name in the pinned cluster. */
  ghost predicate TookBack(trace: seq<Event>, from: nat, c: string, name: string) {
    exists i | from <= i < |trace| :: trace[i].SetLeave? && trace[i].c == c && trace[i].name == name && !trace[i].leave
  }

  /** The member on record was read, still in etcd, and a Machine accounts for it by now: the record
      ends only after the request was taken back, and stands while that fails. */
  ghost predicate TakesBack(x: EtcdMember, machines: seq<Machine>, trace: seq<Event>, from: nat, c: string, out: Outcome) {
    !x.notJoined && Claimed(x, machines) ==>
      if out == GoOn then trace != [] && trace[|trace| - 1] == ClearRecord && TookBack(trace, from, c, x.name)
      else out == Hold || TookBack(trace, from, c, x.name)
  }

  lemma TakesBackSooner(x: EtcdMember, machines: seq<Machine>, trace: seq<Event>, from: nat, from': nat, c: string, out: Outcome)
    requires TakesBack(x, machines, trace, from, c, out) && from' <= from
    ensures TakesBack(x, machines, trace, from', c, out)
  {
  }

  /** spec.leave was never written: the cluster may have changed since the record, so everything
      is checked again before the first write. */
  method AskAgain(r: Reconciler, machines: seq<Machine>, client: Client, member: EtcdMember, desired: int)
    returns (ghost check: Option<Check>)
    requires r.Valid() && Following(r) && client.cluster == r.kcp.pin && ReadMember(r.w.seen, r.kcp.pin, member) && !member.notJoined
    requires OnRecord(r.kcp.record, member) && Unaccounted(machines, member) && DistinctMachines(machines)
    modifies r`trace, r`w, r`worlds, r`trouble
    ensures r.Valid() && Following(r) && old(r.trace) <= r.trace && (old(r.trouble) ==> r.trouble)
    ensures check.Some? ==> check.value.machines == machines && check.value.desired == desired
    ensures check.Some? ==> check.value in Checks(r.w) && check.value.cluster == r.kcp.pin
    ensures check.Some? && !r.trouble && !Blocked(machines, check.value.joined, member.name, check.value.status, desired) ==>
              AskedToLeave(r.trace, r.kcp.pin, member.name)
    ensures Still(old(r.w), r.w)
    ensures !r.trouble ==> AskedToLeave(r.trace, r.kcp.pin, member.name) || NotYet(r.w, r.kcp.pin, machines, member.name, desired)
  {
    var made := MakeCheck(r, machines, client, member, desired);
    check := made;
    if made.Some? {
      var blocked := OrphanRemovalBlocked(machines, made.value.joined, member, made.value.status, desired);
      if !blocked {
        if member in made.value.joined {
          UnblockedIsSafe(made.value, member);
        }
        ghost var was := r.w;
        Ask(r, client, member, made.value);
        CheckStays(was, r.w, made.value);
      }
    }
  }

  lemma TakeBackCanBeAsked(w: World, m: Machine, k: Kcp, s: Scope, c: string, member: EtcdMember, machines: seq<Machine>)
    requires s == OrphanFollowed && OnPin(w, k.pin, c) && ReadMember(w.seen, c, member)
    requires OnRecord(k.record, member) && !Unaccounted(machines, member)
    ensures Leaving(c, member, false, TakeBack(machines, k.record.value)) in Askable(w, k, m, s)
  {
  }

  /** The request to leave is taken back, and then the record ends. */
  method GiveBack(r: Reconciler, machines: seq<Machine>, client: Client, member: EtcdMember) returns (out: Outcome)
    requires r.Valid() && Following(r) && client.cluster == r.kcp.pin && MemberIs(r.kcp.pin, member) in r.w.seen
    requires OnRecord(r.kcp.record, member) && Claimed(member, machines)
    modifies r`trace, r`w, r`worlds, r`trouble, r`kcp
    ensures r.Valid() && Still(old(r.w), r.w) && old(r.trace) <= r.trace && (old(r.trouble) ==> r.trouble)
    ensures r.kcp.pin == old(r.kcp).pin && (out == GoOn <==> r.kcp.record.None?)
    ensures out != GoOn ==> r.kcp == old(r.kcp) && r.trouble
    ensures out == GoOn ==> r.trace != [] && r.trace[|r.trace| - 1] == ClearRecord
    ensures out == GoOn || out.Fails? ==> TookBack(r.trace, |old(r.trace)|, r.kcp.pin, member.name)
    ensures out != Fails(IdentityChanged)
  {
    ClaimedIff(member, machines);
    TakeBackCanBeAsked(r.w, r.target, r.kcp, r.scope, client.cluster, member, machines);
    var res := r.PatchLeave(client, member, false, TakeBack(machines, r.kcp.record.value));
    if res != Patched {
      return Hold;
    }
    ghost var n := |r.trace|;
    out := Finish(r);
    assert r.trace[n - 1] == r.trace[..n][n - 1];
  }

  /** Some Machine accounts for the member. */
  method IsExpected(machines: seq<Machine>, member: EtcdMember) returns (b: bool)
    ensures b <==> Claimed(member, machines)
  {
    var expected := ExpectedEtcdMembers(machines);
    UnaccountedIsNotHad(expected, machines, member);
    ClaimedIff(member, machines);
    b := Has(expected, member);
  }

  /** The recorded member was read, and carries the ID on record. It is gone, or it is taken back, or
      it is asked for again, at last for the cap. */
  method FollowMember(r: Reconciler, machines: seq<Machine>, client: Client, member: EtcdMember, desired: int, capped: bool)
    returns (out: Outcome)
    requires r.Valid() && Following(r) && client.cluster == r.kcp.pin && MemberIs(r.kcp.pin, member) in r.w.seen
    requires OnRecord(r.kcp.record, member) && DistinctMachines(machines)
    modifies r`trace, r`w, r`worlds, r`trouble, r`kcp
    ensures r.Valid() && Still(old(r.w), r.w) && old(r.trace) <= r.trace && (old(r.trouble) ==> r.trouble)
    ensures r.kcp.pin == old(r.kcp).pin && (out == GoOn <==> r.kcp.record.None?)
    ensures out != GoOn ==> r.kcp == old(r.kcp)
    ensures TakesBack(member, machines, r.trace, |old(r.trace)|, r.kcp.pin, out)
    ensures !member.notJoined && !Claimed(member, machines) && !capped ==> out == Hold
    ensures (member.notJoined || Claimed(member, machines) || capped) && !r.trouble ==> out == GoOn
    ensures out != GoOn && !r.trouble ==> Waiting(r.w, r.kcp, machines, desired, r.trace)
    ensures out.Fails? ==> r.trouble
    ensures out != Fails(IdentityChanged)
    ensures out == GoOn ==> r.trace != [] && r.trace[|r.trace| - 1] == ClearRecord
  {
    var expected := IsExpected(machines, member);
    if member.notJoined {
      out := Finish(r);
    } else if expected {
      out := GiveBack(r, machines, client, member);
    } else {
      out := PressOn(r, machines, client, member, desired, capped);
    }
  }

  /** The member is still there and nobody's. */
  method PressOn(r: Reconciler, machines: seq<Machine>, client: Client, member: EtcdMember, desired: int, capped: bool)
    returns (out: Outcome)
    requires r.Valid() && Following(r) && client.cluster == r.kcp.pin && MemberIs(r.kcp.pin, member) in r.w.seen
    requires OnRecord(r.kcp.record, member) && DistinctMachines(machines) && !member.notJoined && !Claimed(member, machines)
    modifies r`trace, r`w, r`worlds, r`trouble, r`kcp
    ensures r.Valid() && Still(old(r.w), r.w) && old(r.trace) <= r.trace && (old(r.trouble) ==> r.trouble)
    ensures r.kcp.pin == old(r.kcp).pin && (out == GoOn <==> r.kcp.record.None?)
    ensures out != GoOn ==> r.kcp == old(r.kcp)
    ensures !capped ==> out == Hold
    ensures member.leave && !capped ==> r.trace == old(r.trace)
    ensures capped && !r.trouble ==> out == GoOn
    ensures out != GoOn && !r.trouble ==> Waiting(r.w, r.kcp, machines, desired, r.trace)
    ensures out.Fails? ==> r.trouble
    ensures out != Fails(IdentityChanged)
    ensures out == GoOn ==> r.trace != [] && r.trace[|r.trace| - 1] == ClearRecord
  {
    ClaimedIff(member, machines);
    if !member.leave {
      var _ := AskAgain(r, machines, client, member, desired);
    }
    out := Hold;
    if capped {
      out := Finish(r);
    }
  }

  /** What following the removal on record comes to, by what was read: it ends past the cap, or when
      it is over; until then the member waits. Each member read is the one of that name, and the one
      on record is taken back if it is some Machine's. */
  ghost predicate Progressed(
    rec: OrphanRecord, began: nat, pin: string, machines: seq<Machine>, desired: int, w: World, trace: seq<Event>, from: nat, k: Kcp, out: Outcome,
    calm: bool)
    requires rec.Record?
  {
    && (out == GoOn <==> k.record.None?) && (out == GoOn ==> trace != [] && trace[|trace| - 1] == ClearRecord)
    && (out != GoOn ==> k.pin == pin && k.record == Some(rec))
    && (calm && began > rec.at + 600 ==> out == GoOn)
    && (out != GoOn && calm && pin != "" ==> Waiting(w, k, machines, desired, trace))
    && (out == GoOn ==> Capped(rec, w.now) || Over(w, pin, rec, machines))
    && (forall x | MemberIs(pin, x) in w.seen ::
          x.name == rec.name && (x.id == Some(rec.id) ==> TakesBack(x, machines, trace, from, pin, out)))
  }

  lemma ProgressedSooner(
    rec: OrphanRecord, began: nat, began': nat, pin: string, machines: seq<Machine>, desired: int, w: World, trace: seq<Event>, from: nat, from': nat,
    k: Kcp, out: Outcome, calm: bool)
    requires rec.Record? && Progressed(rec, began, pin, machines, desired, w, trace, from, k, out, calm)
    requires began' <= began && from' <= from
    ensures Progressed(rec, began', pin, machines, desired, w, trace, from', k, out, calm)
  {
    forall x | MemberIs(pin, x) in w.seen && x.id == Some(rec.id)
      ensures TakesBack(x, machines, trace, from', pin, out)
    {
      TakesBackSooner(x, machines, trace, from, from', pin, out);
    }
  }

  /** progressOrphanLeave: the removal on record, and no other, is followed to its end. */
  method ProgressOrphanLeave(r: Reconciler, machines: seq<Machine>, vias: seq<string>, desired: int) returns (out: Outcome)
    requires r.Valid() && r.scope == OrphanFollowed && !Frozen(r.kcp) && DistinctMachines(machines) && NoneRead(r.w)
    requires r.kcp.record.Some? && r.kcp.record.value.Record?
    modifies r`trace, r`w, r`worlds, r`trouble, r`tried, r`kcp, r`identityCheckedAt
    ensures r.Valid() && Quiet(old(r.w), r.w) && old(r.tried) <= r.tried && old(r.trace) <= r.trace && (old(r.trouble) ==> r.trouble)
    ensures r.kcp.pin == old(r.kcp).pin
    ensures out.Fails? ==> r.trouble || Frozen(r.kcp)
    ensures var k := old(r.kcp);
            && Progressed(k.record.value, old(r.w).now, k.pin, machines, desired, r.w, r.trace, |old(r.trace)|, r.kcp, out, !r.trouble && !Frozen(r.kcp))
            && (k.pin != "" && out != Fails(IdentityChanged) && Answered(k.pin) !in r.w.seen ==> r.tried == old(r.tried) + vias + [ENDPOINT])
  {
    ghost var rec := r.kcp.record.value;
    var now := r.Now();
    var capped := now > r.kcp.record.value.at + MEMBER_LEAVE_CAP;
    var conn := Connect(r, vias, false);
    if conn == Foreign {
      return Fails(IdentityChanged);
    }
    ghost var n := |r.trace|;
    out := FollowThrough(r, machines, conn, desired, now, capped);
    ProgressedSooner(rec, now, old(r.w).now, r.kcp.pin, machines, desired, r.w, r.trace, n, |old(r.trace)|, r.kcp, out, !r.trouble && !Frozen(r.kcp));
  }

  /** No other cluster answered. */
  method FollowThrough(r: Reconciler, machines: seq<Machine>, conn: Conn, desired: int, now: nat, capped: bool) returns (out: Outcome)
    requires r.Valid() && r.scope == OrphanFollowed && !Frozen(r.kcp) && DistinctMachines(machines) && NoneRead(r.w)
    requires r.kcp.record.Some? && r.kcp.record.value.Record? && now <= r.w.now && (capped <==> now > r.kcp.record.value.at + 600)
    requires conn != Foreign && Trusted(r.w, r.kcp, conn) && (conn == NoConn ==> r.trouble || r.kcp.pin == "")
    modifies r`trace, r`w, r`worlds, r`trouble, r`kcp
    ensures r.Valid() && Quiet(old(r.w), r.w) && old(r.trace) <= r.trace && (old(r.trouble) ==> r.trouble)
    ensures r.kcp.pin == old(r.kcp).pin && (out.Fails? ==> r.trouble) && out != Fails(IdentityChanged)
    ensures Progressed(old(r.kcp).record.value, now, r.kcp.pin, machines, desired, r.w, r.trace, |old(r.trace)|, r.kcp, out, !r.trouble && !Frozen(r.kcp))
  {
    ghost var rec := r.kcp.record.value;
    var read := ReadFailed;
    if conn.Connected? {
      read := r.GetMember(conn.client, r.kcp.record.value.name);
    }
    ghost var n := |r.trace|;
    out := Hold;
    if !read.ReadFailed? || capped {
      out := FollowRead(r, machines, conn, read, desired, now, capped);
      ProgressedSooner(rec, now, now, r.kcp.pin, machines, desired, r.w, r.trace, n, |old(r.trace)|, r.kcp, out, !r.trouble && !Frozen(r.kcp));
    }
  }

  /** The member of that name was looked for. */
  method FollowRead(r: Reconciler, machines: seq<Machine>, conn: Conn, read: Read<EtcdMember>, desired: int, ghost now: nat, capped: bool)
    returns (out: Outcome)
    requires r.Valid() && r.scope == OrphanFollowed && !Frozen(r.kcp) && DistinctMachines(machines) && r.kcp.record.Some? && r.kcp.record.value.Record?
    requires now <= r.w.now && (capped <==> now > r.kcp.record.value.at + 600) && (read.ReadFailed? ==> capped)
    requires conn != Foreign && Trusted(r.w, r.kcp, conn) && (!read.ReadFailed? ==> conn.Connected?)
    requires read.ReadFailed? || IsRead(r.w, r.kcp.pin, r.kcp.record.value.name, read)
    requires forall x | MemberIs(r.kcp.pin, x) in r.w.seen :: read == Found(x)
    modifies r`trace, r`w, r`worlds, r`trouble, r`kcp
    ensures r.Valid() && Still(old(r.w), r.w) && old(r.trace) <= r.trace && (old(r.trouble) ==> r.trouble)
    ensures r.kcp.pin == old(r.kcp).pin && (out.Fails? ==> r.trouble) && out != Fails(IdentityChanged)
    ensures Progressed(old(r.kcp).record.value, now, r.kcp.pin, machines, desired, r.w, r.trace, |old(r.trace)|, r.kcp, out, !r.trouble && !Frozen(r.kcp))
  {
    if read.Found? && read.value.id == Some(r.kcp.record.value.id) {
      out := FollowMember(r, machines, conn.client, read.value, desired, capped);
    } else {
      out := Finish(r);
    }
  }

  // ---- the pass ----

  /** No scaling, no rollout, no Machine on its way in or out. */
  ghost predicate Settled(kcp: Kcp, owned: seq<Machine>, all: seq<Machine>, desired: int) {
    && !kcp.deleting && |owned| == desired
    && (forall m | m in owned :: m.version != "" && m.version == kcp.version)
    && (forall m | m in all :: !m.deleting && m.nodeRef.Some?)
  }

  method OrphanCleanupBlocked(kcp: Kcp, owned: seq<Machine>, all: seq<Machine>, desired: int) returns (blocked: bool)
    ensures blocked <==> !Settled(kcp, owned, all, desired)
  {
    if kcp.deleting || |owned| != desired {
      return true;
    }
    for i := 0 to |owned|
      invariant forall j | 0 <= j < i :: owned[j].version != "" && owned[j].version == kcp.version
    {
      if owned[i].version == "" || owned[i].version != kcp.version {
        assert owned[i] in owned;
        return true;
      }
    }
    for i := 0 to |all|
      invariant forall j | 0 <= j < i :: !all[j].deleting && all[j].nodeRef.Some?
    {
      if all[i].deleting || all[i].nodeRef.None? {
        assert all[i] in all;
        return true;
      }
    }
    return false;
  }

  /** parseOrphanLeave: a name that can be one, and a time that is not from the future. */
  predicate ValidRecord(rec: OrphanRecord, now: nat) {
    rec.Record? && IsSubdomain(rec.name) && rec.at <= now + ORPHAN_CLOCK_SKEW
  }

  /** The last check is long enough ago. */
  predicate CheckDue(checkedAt: Option<nat>, now: nat) {
    checkedAt.None? || now >= checkedAt.value + ORPHAN_CHECK_INTERVAL
  }

  /** On a settled control plane, a check is due a minute after the last. */
  ghost predicate MayCheck(kcp: Kcp, owned: seq<Machine>, all: seq<Machine>, desired: int, checkedAt: Option<nat>, now: nat) {
    Settled(kcp, owned, all, desired) && (checkedAt.None? || now >= checkedAt.value + 60)
  }

  /** What a pass that finds no removal on record comes to. Only on a settled control plane, and a
      minute after the last check, it makes one and may start one; and when it may check and has no
      reason not to, it does. */
  ghost predicate Began(
    k: Kcp, k': Kcp, owned: seq<Machine>, all: seq<Machine>, desired: int, check: Option<Check>, out: Outcome, lo: nat, w: World, trace: seq<Event>,
    was: Option<nat>, at: Option<nat>, trouble: bool)
  {
    && Decided(check, k', all, w, trace, trouble) && Dated(k'.record, lo, w.now)
    && (out == GoOn ==> k' == k) && (k'.record.Some? ==> out == Hold)
    && (check.Some? ==>
          && check.value.desired == desired && AllVote(all, check.value.status)
          && Settled(k, owned, all, desired) && (was.None? || w.now >= was.value + 60))
    && (MayCheck(k, owned, all, desired, was, lo) ==> Tried(check, k', all, w, trouble))
    && CheckNoted(check, k', w, out, was, at, lo)
    && (MayCheck(k, owned, all, desired, was, lo) && check.None? && !trouble && !Frozen(k') && k.pin != "" &&
        (forall reports | ReportsAre(reports) in w.seen :: AllVote(all, reports)) ==>
          Between(at, lo, w.now))
    && (out.Fails? ==> trouble || Frozen(k'))
  }

  /** No removal is on record: one may start. On a settled control plane, when a check is due, one is
      made. */
  method StartRemoval(r: Reconciler, owned: seq<Machine>, all: seq<Machine>, vias: seq<string>, desired: int)
    returns (out: Outcome, ghost check: Option<Check>)
    requires r.Valid() && r.scope == OrphanRemoval && !Frozen(r.kcp) && r.kcp.record.None? && DistinctMachines(all)
    requires NoneReported(r.w)
    modifies r`trace, r`w, r`worlds, r`trouble, r`tried, r`kcp, r`identityCheckedAt, r`orphanCheckedAt
    ensures r.Valid() && Unread(old(r.w), r.w) && old(r.tried) <= r.tried && old(r.trace) <= r.trace && (old(r.trouble) ==> r.trouble)
    ensures r.kcp.pin == old(r.kcp).pin
    ensures Began(old(r.kcp), r.kcp, owned, all, desired, check, out, old(r.w).now, r.w, r.trace,
              old(r.orphanCheckedAt), r.orphanCheckedAt, r.trouble)
    ensures Pursued(r.w, old(r.kcp).pin, all, old(r.tried), r.tried, vias, out)
    ensures !Settled(old(r.kcp), owned, all, desired) ==> r.trace == old(r.trace)
  {
    check, out := None, GoOn;
    var blocked := OrphanCleanupBlocked(r.kcp, owned, all, desired);
    if !blocked {
      var now := r.Now();
      if CheckDue(r.orphanCheckedAt, now) {
        out, check := RemoveOneOrphan(r, all, vias, desired);
      }
    }
  }

  /** A record the code follows: of a name that can be one, and a time at most five minutes ahead. */
  ghost predicate Followed(rec: OrphanRecord, now: nat) {
    rec.Record? && IsSubdomain(rec.name) && rec.at <= now + 300
  }

  /** What the pass comes to. A text that is no record is dropped. */
  ghost predicate CleanedUp(
    k: Kcp, k': Kcp, owned: seq<Machine>, all: seq<Machine>, desired: int, check: Option<Check>, out: Outcome, lo: nat, w: World, trace: seq<Event>,
    from: nat, was: Option<nat>, at: Option<nat>, trouble: bool)
  {
    if k.record.None? then Began(k, k', owned, all, desired, check, out, lo, w, trace, was, at, trouble)
    else
      && at == was && check.None?
      && (if Followed(k.record.value, lo) then
            Progressed(k.record.value, lo, k.pin, all, desired, w, trace, from, k', out, !trouble && k'.mismatch.None?)
          else (out == GoOn <==> k'.record.None?) && (!trouble ==> out == GoOn))
      && (out == GoOn ==> trace != [] && trace[|trace| - 1] == ClearRecord)
  }

  /** reconcileOrphanEtcdMembers. A removal on record is followed and nothing else is started; a
      text that is no record is dropped and nothing is asked of k0s; frozen, the pass writes
      nothing; and only a settled k0s HA control plane starts a removal, of the first orphan by
      name. Unless a call fails or a freeze comes up, a check that is due is made, a record ends past
      the cap, and goes on only while the member was read as still there and asked to leave, or not
      yet for a reason; before the cap it ends only when the removal is over, and where a Machine
      accounts for the member, only once the request was taken back. Whatever is written
      rests on what the pinned cluster showed in this very pass. The record followed is the one of
      the snapshot, which may have ended since. `all` is None when the Machines could not be listed. */
  method ReconcileOrphanEtcdMembers(r: Reconciler, owned: seq<Machine>, all: Option<seq<Machine>>, vias: seq<string>, desired: int)
    returns (out: Outcome, ghost check: Option<Check>)
    requires r.Valid() && (all.Some? ==> DistinctMachines(all.value))
    modifies r`trace, r`w, r`worlds, r`trouble, r`tried, r`base, r`began, r`scope, r`kcp, r`identityCheckedAt, r`orphanCheckedAt
    ensures r.Valid() && r.base == old(r.trace) && r.began == old(r.w) && old(r.tried) <= r.tried && old(r.trace) + [NewPass] <= r.trace && (old(r.trouble) ==> r.trouble)
    ensures r.kcp.pin == old(r.kcp).pin
    ensures r.scope == if old(r.kcp).record.None? then OrphanRemoval
                       else if Followed(old(r.kcp).record.value, old(r.w).now) then OrphanFollowed else OrphanForgotten
    ensures var k := old(r.kcp);
            if k.record.None? && (!k.k0s || desired <= 1) then out == GoOn && check.None? && r.trace == old(r.trace) + [NewPass] && r.kcp == k
            else if k.mismatch.Some? then out == Fails(IdentityChanged) && check.None? && r.trace == old(r.trace) + [NewPass] && r.kcp == k
            else if all.None? then out == Fails(Silent) && check.None? && r.trace == old(r.trace) + [NewPass] && r.kcp == k
            else
              && CleanedUp(k, r.kcp, owned, all.value, desired, check, out, old(r.w).now, r.w, r.trace, |old(r.trace)| + 1,
                   old(r.orphanCheckedAt), r.orphanCheckedAt, r.trouble)
              && (k.record.None? ==> Pursued(r.w, k.pin, all.value, old(r.tried), r.tried, vias, out))
              && (k.record.Some? && Followed(k.record.value, old(r.w).now) && k.pin != "" && out != Fails(IdentityChanged) &&
                  Answered(k.pin) !in r.w.seen ==>
                    r.tried == old(r.tried) + vias + [ENDPOINT])
    ensures FoundedPass(r.Story())
  {
    check, out := None, GoOn;
    r.Begin(ScopeOf(r.kcp.record, r.w.now));
    if r.kcp.record.Some? || (r.kcp.k0s && desired > 1) {
      out, check := CleanUp(r, owned, all, vias, desired);
    }
    ThisPass(r.Story());
  }

  /** There is a record to follow, or there may be an orphan. */
  method CleanUp(r: Reconciler, owned: seq<Machine>, all: Option<seq<Machine>>, vias: seq<string>, desired: int)
    returns (out: Outcome, ghost check: Option<Check>)
    requires r.Valid() && (all.Some? ==> DistinctMachines(all.value)) && r.scope == ScopeOf(r.kcp.record, r.w.now) && r.w.seen == {}
    modifies r`trace, r`w, r`worlds, r`trouble, r`tried, r`kcp, r`identityCheckedAt, r`orphanCheckedAt
    ensures r.Valid() && old(r.tried) <= r.tried && old(r.trace) <= r.trace && (old(r.trouble) ==> r.trouble)
    ensures r.kcp.pin == old(r.kcp).pin
    ensures var k := old(r.kcp);
            if k.mismatch.Some? then out == Fails(IdentityChanged) && check.None? && r.trace == old(r.trace) && r.kcp == k
            else if all.None? then out == Fails(Silent) && check.None? && r.trace == old(r.trace) && r.kcp == k
            else
              && CleanedUp(k, r.kcp, owned, all.value, desired, check, out, old(r.w).now, r.w, r.trace, |old(r.trace)|,
                   old(r.orphanCheckedAt), r.orphanCheckedAt, r.trouble)
              && (k.record.None? ==> Pursued(r.w, k.pin, all.value, old(r.tried), r.tried, vias, out))
              && (k.record.Some? && Followed(k.record.value, old(r.w).now) && k.pin != "" && out != Fails(IdentityChanged) &&
                  Answered(k.pin) !in r.w.seen ==>
                    r.tried == old(r.tried) + vias + [ENDPOINT])
  {
    check, out := None, GoOn;
    if Frozen(r.kcp) {
      out := Fails(IdentityChanged);
    } else if all.None? {
      out := Fails(Silent);
    } else if r.kcp.record.None? {
      out, check := StartRemoval(r, owned, all.value, vias, desired);
    } else if ValidRecord(r.kcp.record.value, r.w.now) {
      out := ProgressOrphanLeave(r, all.value, vias, desired);
    } else {
      out := Finish(r);
    }
  }

  /** What a pass may write, given what it finds on record. */
  function ScopeOf(record: Option<OrphanRecord>, now: nat): Scope {
    if record.None? then OrphanRemoval else if ValidRecord(record.value, now) then OrphanFollowed else OrphanForgotten
  }
}
