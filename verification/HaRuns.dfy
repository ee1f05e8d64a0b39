/**
 What holds in every run of the HA etcd-membership protocol: every sequence of legal
 writes and environment jumps, of any length, in any order.
 */
module HaRuns {
  import opened Wrappers
  import opened EtcdTypes
  import opened IdentityPin
  import opened OrphanMatching
  import opened HaWorld

  /** Event i is legal in the world it meets, and leads to the next. */
  ghost predicate Step(worlds: seq<World>, trace: seq<Event>, i: nat) {
    i < |trace| && i + 1 < |worlds| && Legal(worlds[i], trace[i]) && worlds[i + 1] == Apply(worlds[i], trace[i])
  }

  /** A run: the worlds before, between and after its events. It starts with nothing read, and
      with no history of orphan records but the one stored. */
  ghost predicate LegalRun(worlds: seq<World>, trace: seq<Event>) {
    && |worlds| == |trace| + 1 && Starts(worlds[0])
    && forall i | 0 <= i < |trace| :: Step(worlds, trace, i)
  }

  ghost predicate Starts(w: World) {
    Inv(w) && w.seen == {} && forall r | r in w.records :: w.kcp.record == Some(r)
  }

  lemma RunExtended(worlds: seq<World>, trace: seq<Event>, e: Event)
    requires LegalRun(worlds, trace) && Legal(worlds[|trace|], e)
    ensures LegalRun(worlds + [Apply(worlds[|trace|], e)], trace + [e])
  {
    var worlds', trace' := worlds + [Apply(worlds[|trace|], e)], trace + [e];
    forall i | 0 <= i < |trace'|
      ensures Step(worlds', trace', i)
    {
      assert i < |trace| ==> Step(worlds, trace, i);
    }
  }

  /** The invariant holds throughout a run. */
  lemma {:induction false} InvAt(worlds: seq<World>, trace: seq<Event>, i: nat)
    requires LegalRun(worlds, trace) && i <= |trace|
    ensures Inv(worlds[i])
  {
    if i > 0 {
      InvAt(worlds, trace, i - 1);
      assert Step(worlds, trace, i - 1);
      InvKept(worlds[i - 1], trace[i - 1]);
    }
  }

  /** Every event of a run is legal where it happens, and the invariant holds there. */
  lemma LegalAt(worlds: seq<World>, trace: seq<Event>, i: nat)
    requires LegalRun(worlds, trace) && i < |trace|
    ensures Inv(worlds[i]) && Legal(worlds[i], trace[i]) && worlds[i + 1] == Apply(worlds[i], trace[i])
  {
    InvAt(worlds, trace, i);
    assert Step(worlds, trace, i);
  }

  /** Event i leads from world i to the next, and what others do keeps to the rules. */
  lemma StepAt(worlds: seq<World>, trace: seq<Event>, i: nat)
    requires LegalRun(worlds, trace) && i < |trace|
    ensures worlds[i + 1] == Apply(worlds[i], trace[i]) && (trace[i].Env? ==> Rely(worlds[i], trace[i].next))
  {
    assert Step(worlds, trace, i);
  }

  /** History only grows. */
  ghost predicate Grown(w: World, w': World) {
    && w.pins <= w'.pins && w.names <= w'.names && w.records <= w'.records && w.notes <= w'.notes && w.now <= w'.now
    && (forall k | k in w.nodes :: k in w'.nodes && w'.nodes[k] == w.nodes[k]) && w.early <= w'.early
    && (forall n | n in w.notes :: n.RequestedNote? ==> n.machine in w.early || n.machine !in w'.early)
  }

  lemma StepGrows(w: World, e: Event)
    requires e.Env? ==> Rely(w, e.next)
    ensures Grown(w, Apply(w, e))
  {
  }

  lemma {:induction false} HistoryGrows(worlds: seq<World>, trace: seq<Event>, i: nat, j: nat)
    requires LegalRun(worlds, trace) && i <= j <= |trace|
    ensures Grown(worlds[i], worlds[j])
    decreases j - i
  {
    if i < j {
      StepAt(worlds, trace, i);
      StepGrows(worlds[i], trace[i]);
      HistoryGrows(worlds, trace, i + 1, j);
    }
  }

  // ---- what was read ----

  /** No pass starts between event j and moment i. */
  ghost predicate SamePass(trace: seq<Event>, j: nat, i: nat) {
    j < i <= |trace| && forall l | j < l < i :: !trace[l].NewPass?
  }

  lemma SeenStep(w: World, e: Event, f: Fact)
    requires (e.Env? ==> Rely(w, e.next)) && f in Apply(w, e).seen
    ensures e == Saw(f) || (f in w.seen && !e.NewPass?)
  {
  }

  /** What a pass goes by at moment i, it read itself, and it was so when it was read. */
  lemma {:induction false} SeenStood(worlds: seq<World>, trace: seq<Event>, i: nat, f: Fact) returns (j: nat)
    requires LegalRun(worlds, trace) && i <= |trace| && f in worlds[i].seen
    ensures SamePass(trace, j, i) && trace[j] == Saw(f) && Holds(worlds[j], f)
  {
    StepAt(worlds, trace, i - 1);
    SeenStep(worlds[i - 1], trace[i - 1], f);
    if trace[i - 1] == Saw(f) {
      assert Step(worlds, trace, i - 1);
      j := i - 1;
    } else {
      j := SeenStood(worlds, trace, i - 1, f);
    }
  }

  /** The cluster whose word an event acts on, or that it writes to. */
  function ActsOn(e: Event): Option<string> {
    match e
    case ForceRequest(c, _, _) => Some(c)
    case KeepRequest(c, _) => Some(c)
    case SetLeave(c, _, _, _) => Some(c)
    case SetRecord(_, check) => Some(check.cluster)
    case DropHook(_, OnAck(c, _, _)) => Some(c)
    case DropHook(_, NotReported(c, _)) => Some(c)
    case DropHook(_, NotJoined(c, _)) => Some(c)
    case DropHook(_, NoSuchMember(c, _)) => Some(c)
    case DropHook(_, CannotTell(c, _, _)) => Some(c)
    case _ => None
  }

  /** The world is as the evidence has it. */
  ghost predicate Shows(w: World, why: Release) {
    match why
    case OnAck(c, node, entry) => c in w.clusters && node in w.clusters[c].leaves && w.clusters[c].leaves[node] == entry && entry.value == Left
    case NotReported(c, node) => node !in w.reports
    case NotJoined(c, m) => c in w.clusters && m.name in w.clusters[c].members && w.clusters[c].members[m.name] == m && m.notJoined
    case NoSuchMember(c, node) => c in w.clusters && w.clusters[c].hasAPI && node !in w.clusters[c].members
    case CannotTell(c, node, Unserved) => c in w.clusters && !w.clusters[c].hasAPI
    case CannotTell(c, node, d) => c in w.clusters && node in w.clusters[c].members && w.clusters[c].members[node] == d.member
    case Unreachable(_) => true
    case Capped(_) => true
    case NotK0s => true
  }

  /** The pass had the answer of the pinned cluster c before it acted on it. */
  ghost predicate AnsweredAt(worlds: seq<World>, trace: seq<Event>, c: string, j: nat, i: nat)
    requires |worlds| == |trace| + 1
  {
    SamePass(trace, j, i) && trace[j] == Saw(Answered(c)) && c in worlds[j].clusters
  }

  /** The evidence stood when the pass read it. */
  ghost predicate Stood(worlds: seq<World>, trace: seq<Event>, why: Release, j: nat, i: nat)
    requires |worlds| == |trace| + 1
  {
    SamePass(trace, j, i) && trace[j].Saw? && Shows(worlds[j], why)
  }

  lemma ReleaseStood(worlds: seq<World>, trace: seq<Event>, i: nat) returns (j: nat)
    requires LegalRun(worlds, trace) && i < |trace| && trace[i].DropHook? && ActsOn(trace[i]).Some?
    ensures Stood(worlds, trace, trace[i].why, j, i)
  {
    LegalAt(worlds, trace, i);
    var seen := worlds[i].seen;
    match trace[i].why
    case OnAck(c, node, entry) =>
      var leaves :| LeavesAre(c, leaves) in seen && node in leaves && leaves[node] == entry;
      j := SeenStood(worlds, trace, i, LeavesAre(c, leaves));
    case NotReported(c, node) =>
      var reports :| ReportsAre(reports) in seen && node !in reports;
      j := SeenStood(worlds, trace, i, ReportsAre(reports));
    case NotJoined(c, member) =>
      j := SeenStood(worlds, trace, i, MemberIs(c, member));
    case NoSuchMember(c, node) =>
      j := SeenStood(worlds, trace, i, NoMember(c, node));
    case CannotTell(c, node, doubt) =>
      j := SeenStood(worlds, trace, i, if doubt.Unserved? then NoMemberAPI(c) else MemberIs(c, doubt.member));
  }

  /** An event that acts on a cluster acts on one that was pinned, that answered in the very pass,
      and that showed in that pass what the event goes by. */
  ghost predicate Founded(worlds: seq<World>, trace: seq<Event>, i: nat)
    requires i < |trace| && |worlds| == |trace| + 1
  {
    ActsOn(trace[i]).Some? ==>
      && ActsOn(trace[i]).value in worlds[i].pins
      && (exists j :: AnsweredAt(worlds, trace, ActsOn(trace[i]).value, j, i))
      && (trace[i].DropHook? ==> exists j :: Stood(worlds, trace, trace[i].why, j, i))
  }

  lemma AllFounded(worlds: seq<World>, trace: seq<Event>, i: nat)
    requires LegalRun(worlds, trace) && i < |trace|
    ensures Founded(worlds, trace, i)
  {
    LegalAt(worlds, trace, i);
    if ActsOn(trace[i]).Some? {
      var c := ActsOn(trace[i]).value;
      var j := SeenStood(worlds, trace, i, Answered(c));
      assert AnsweredAt(worlds, trace, c, j, i);
      if trace[i].DropHook? {
        var e := ReleaseStood(worlds, trace, i);
      }
    }
  }

  /** What event i goes by was read after event n. */
  ghost predicate FoundedSince(worlds: seq<World>, trace: seq<Event>, n: nat, i: nat)
    requires i < |trace| && |worlds| == |trace| + 1
  {
    ActsOn(trace[i]).Some? ==>
      && (exists j :: n < j && AnsweredAt(worlds, trace, ActsOn(trace[i]).value, j, i))
      && (trace[i].DropHook? ==> exists j :: n < j && Stood(worlds, trace, trace[i].why, j, i))
  }

  lemma PassFounded(worlds: seq<World>, trace: seq<Event>, n: nat)
    requires LegalRun(worlds, trace) && n < |trace| && trace[n] == NewPass
    ensures forall i | n < i < |trace| :: FoundedSince(worlds, trace, n, i)
  {
    forall i | n < i < |trace|
      ensures FoundedSince(worlds, trace, n, i)
    {
      AllFounded(worlds, trace, i);
    }
  }

  // ---- identity ----

  /** In a run in which nothing but `uid` was ever pinned, no leave is requested or asked of
      k0s in another cluster, and no hook is dropped on another cluster's ack, absent member or
      Joined=False, however often an impostor answers. Each such step is taken in a pass in which
      the cluster `uid` answered, and itself showed what the step goes by. */
  lemma ImpostorHasNoSay(worlds: seq<World>, trace: seq<Event>, uid: string, i: nat)
    requires LegalRun(worlds, trace) && i < |trace|
    requires worlds[|trace|].pins <= {uid}
    ensures ActsOn(trace[i]).Some? ==> ActsOn(trace[i]).value == uid && exists j :: AnsweredAt(worlds, trace, uid, j, i)
    ensures ActsOn(trace[i]).Some? && trace[i].DropHook? ==> exists j :: Stood(worlds, trace, trace[i].why, j, i)
  {
    AllFounded(worlds, trace, i);
    HistoryGrows(worlds, trace, i, |trace|);
  }

  /** A step of the controller, or one of others that leaves the pin and the freeze alone. */
  ghost predicate HandsOff(worlds: seq<World>, trace: seq<Event>, i: nat)
    requires i < |trace| && |worlds| == |trace| + 1
  {
    trace[i].Env? ==>
      var w, w' := worlds[i], worlds[i + 1];
      w'.kcp.pin == w.kcp.pin && w'.kcp.mismatch == w.kcp.mismatch
  }

  ghost predicate StuckFrozen(k: Kcp) {
    k.mismatch.Some? && RecordedPin(k.mismatch.value) == Some(DisplayUID(k.pin))
  }

  lemma {:induction false} StuckStays(worlds: seq<World>, trace: seq<Event>, i: nat, j: nat)
    requires LegalRun(worlds, trace) && i <= j <= |trace|
    requires StuckFrozen(worlds[i].kcp)
    requires forall k | i <= k < j :: HandsOff(worlds, trace, k)
    ensures worlds[j].kcp.mismatch == worlds[i].kcp.mismatch
    ensures worlds[j].kcp.pin == worlds[i].kcp.pin
    decreases j - i
  {
    if i < j {
      LegalAt(worlds, trace, i);
      assert HandsOff(worlds, trace, i);
      StuckStays(worlds, trace, i + 1, j);
    }
  }

  /** A freeze the controller wrote stays, with its first observation and under the same pin,
      for as long as nobody else edits the pin or the freeze. */
  lemma FreezeIsSticky(worlds: seq<World>, trace: seq<Event>, i: nat, j: nat)
    requires LegalRun(worlds, trace) && i < j <= |trace| && trace[i].SetMismatch?
    requires forall k | i < k < j :: HandsOff(worlds, trace, k)
    ensures worlds[j].kcp.mismatch == Some(trace[i].value)
    ensures worlds[j].kcp.pin == worlds[i].kcp.pin
  {
    LegalAt(worlds, trace, i);
    var k := worlds[i].kcp;
    var uid, via, at :| trace[i].value == MismatchValue(uid, via, at, k.pin);
    RecordedPinOfMismatch(uid, via, at, k.pin);
    StuckStays(worlds, trace, i + 1, j);
  }

  /** The controller lifts a freeze only when the pin now shown is not the pin on record in it;
      and while frozen it changes neither the pin nor the orphan record. */
  lemma FrozenStep(worlds: seq<World>, trace: seq<Event>, i: nat)
    requires LegalRun(worlds, trace) && i < |trace| && !trace[i].Env?
    requires Frozen(worlds[i].kcp)
    ensures var w, w' := worlds[i], worlds[i + 1];
            && w'.kcp.pin == w.kcp.pin && w'.kcp.record == w.kcp.record
            && (w'.kcp.mismatch == w.kcp.mismatch ||
                (w'.kcp.mismatch.None? && !StuckFrozen(w.kcp) && RecordedPin(w.kcp.mismatch.value).Some?))
  {
    LegalAt(worlds, trace, i);
  }

  /** The controller lifts no freeze it wrote unless somebody edited the pin, or the freeze, after
      it was written. */
  lemma FreezeLiftedOnlyByRepin(worlds: seq<World>, trace: seq<Event>, i: nat, j: nat)
    requires LegalRun(worlds, trace) && i < j < |trace| && trace[i].SetMismatch? && trace[j].ClearMismatch?
    ensures exists k | i < k < j :: !HandsOff(worlds, trace, k)
  {
    if forall k | i < k < j :: HandsOff(worlds, trace, k) {
      FreezeIsSticky(worlds, trace, i, j);
      LegalAt(worlds, trace, i);
      LegalAt(worlds, trace, j);
      var uid, via, at :| trace[i].value == MismatchValue(uid, via, at, worlds[i].kcp.pin);
      RecordedPinOfMismatch(uid, via, at, worlds[i].kcp.pin);
    }
  }

  // ---- the orphan record ----

  predicate OrphanLeave(e: Event) {
    e.SetLeave? && e.purpose.ForOrphan?
  }

  function RecordName(r: OrphanRecord): string {
    match r
    case Record(name, _, _) => name
    case Unparsable => ""
  }

  /** The check a removal, or its late first write, was judged on, and whose removal. */
  function CheckOf(e: Event): Option<Check> {
    match e
    case SetRecord(_, check) => Some(check)
    case SetLeave(_, _, _, ForOrphan(check, _)) => Some(check)
    case _ => None
  }

  function TargetOf(e: Event): string
    requires CheckOf(e).Some?
  {
    match e
    case SetRecord(r, _) => RecordName(r)
    case SetLeave(_, name, _, _) => name
  }

  /** The members are those the cluster listed and did not report Joined=False. */
  ghost predicate JoinedThere(w: World, c: string, joined: seq<EtcdMember>) {
    c in w.clusters && w.clusters[c].hasAPI &&
    forall m :: m in joined <==> m.name in w.clusters[c].members && w.clusters[c].members[m.name] == m && !m.notJoined
  }

  ghost predicate ListedAt(worlds: seq<World>, trace: seq<Event>, check: Check, j: nat, i: nat)
    requires |worlds| == |trace| + 1
  {
    SamePass(trace, j, i) && trace[j].Saw? && JoinedThere(worlds[j], check.cluster, check.joined)
  }

  ghost predicate ReportedAt(worlds: seq<World>, trace: seq<Event>, check: Check, j: nat, i: nat)
    requires |worlds| == |trace| + 1
  {
    SamePass(trace, j, i) && trace[j].Saw? && worlds[j].reports == check.status
  }

  lemma CheckRead(w: World, e: Event)
    requires Legal(w, e) && CheckOf(e).Some?
    ensures Judged(w, CheckOf(e).value)
  {
  }

  lemma ListShows(w: World, c: string, list: seq<EtcdMember>, joined: seq<EtcdMember>)
    requires Holds(w, MembersAre(c, list)) && forall m :: m in joined <==> m in list && !m.notJoined
    ensures JoinedThere(w, c, joined)
  {
    ListIsExact(w, c, list);
  }

  lemma CheckStood(worlds: seq<World>, trace: seq<Event>, i: nat)
    requires LegalRun(worlds, trace) && i < |trace| && CheckOf(trace[i]).Some?
    ensures exists j :: ListedAt(worlds, trace, CheckOf(trace[i]).value, j, i)
    ensures exists j :: ReportedAt(worlds, trace, CheckOf(trace[i]).value, j, i)
  {
    var check, w := CheckOf(trace[i]).value, worlds[i];
    assert Step(worlds, trace, i);
    CheckRead(w, trace[i]);
    var list :| MembersAre(check.cluster, list) in w.seen && forall m :: m in check.joined <==> m in list && !m.notJoined;
    var j := SeenStood(worlds, trace, i, MembersAre(check.cluster, list));
    ListShows(worlds[j], check.cluster, list, check.joined);
    assert ListedAt(worlds, trace, check, j, i);
    var k := SeenStood(worlds, trace, i, ReportsAre(check.status));
    assert ReportedAt(worlds, trace, check, k, i);
  }

  lemma ListIsExact(w: World, c: string, list: seq<EtcdMember>)
    requires Holds(w, MembersAre(c, list))
    ensures forall m :: m in list <==> m.name in w.clusters[c].members && w.clusters[c].members[m.name] == m
  {
    forall m: EtcdMember | m.name in w.clusters[c].members && w.clusters[c].members[m.name] == m
      ensures m in list
    {
      assert m.name in MemberNames(list);
    }
  }

  /** The members named like a registered Machine's Node that are reported healthy and voting, other
      than the one of that name. */
  ghost function VotersLeft(check: Check, name: string): set<string> {
    set e | e in check.joined && e.name != name && (exists m | m in check.machines :: m.nodeRef == Some(e.name)) &&
            e.name in check.status && check.status[e.name].healthy && check.status[e.name].voting :: e.name
  }

  /** No Machine is being deleted; the member that goes is in etcd, and no Machine goes by its name or
      reports its address; the Machines are paired one to one with other members; and the healthy
      voters that stay are a strict majority of the members left and of the desired replicas. */
  ghost predicate LeavesQuorum(check: Check, name: string) {
    var p, h := Pair(check.machines, check.joined), |VotersLeft(check, name)|;
    && (forall m | m in check.machines :: !m.deleting && m.nodeRef != Some(name) && ToLower(m.hostname) != name)
    && (exists e | e in check.joined :: e.name == name && forall m | m in check.machines :: e.peer.None? || Some(e.peer.value) !in m.addresses)
    && Injective(p) && p.Keys == MachineNames(check.machines) && p.Values <= MemberNames(check.joined) - {name}
    && Justified(p, check.machines, check.joined)
    && 2 * h > |check.joined| - 1 && 2 * h > check.desired
  }

  lemma SafeLeavesQuorum(check: Check, e: EtcdMember)
    requires SafeToRemove(check, e)
    ensures LeavesQuorum(check, e.name)
  {
    UnblockedRemovalIsSafe(check.machines, check.joined, e, check.status, check.desired);
    PairingIsInjection(check.machines, check.joined);
    assert VotersLeft(check, e.name) == HealthyLeft(check.joined, e.name, check.machines, check.status);
  }

  /** Every removal is recorded unfrozen, with no other on record, and both the record and every
      first write of spec.leave rest on a check of the same pass: of the members a pinned cluster
      listed in that pass and the reports that stood in it, on which the removal leaves a quorum. */
  lemma RemovalStartsSafe(worlds: seq<World>, trace: seq<Event>, i: nat)
    requires LegalRun(worlds, trace) && i < |trace| && CheckOf(trace[i]).Some?
    ensures trace[i].SetRecord? ==>
              && worlds[i].kcp.record.None? && worlds[i].kcp.mismatch.None?
              && trace[i].record.Record? && worlds[i].passAt <= trace[i].record.at <= worlds[i].now
    ensures LeavesQuorum(CheckOf(trace[i]).value, TargetOf(trace[i]))
    ensures CheckOf(trace[i]).value.cluster in worlds[i].pins
    ensures exists j :: ListedAt(worlds, trace, CheckOf(trace[i]).value, j, i)
    ensures exists j :: ReportedAt(worlds, trace, CheckOf(trace[i]).value, j, i)
  {
    LegalAt(worlds, trace, i);
    CheckStood(worlds, trace, i);
    var check := CheckOf(trace[i]).value;
    if trace[i].SetRecord? {
      var e :| e in check.joined && OnRecord(Some(trace[i].record), e) && SafeToRemove(check, e);
      SafeLeavesQuorum(check, e);
    } else {
      LeaveLeavesQuorum(worlds[i], trace[i]);
    }
  }

  lemma LeaveLeavesQuorum(w: World, e: Event)
    requires Inv(w) && Legal(w, e) && OrphanLeave(e)
    ensures LeavesQuorum(e.purpose.check, e.name)
  {
    var check, member := e.purpose.check, w.clusters[e.c].members[e.name];
    assert RevisionsUpTo(w.clusters[e.c], w.step);
    SafeLeavesQuorum(check, member);
  }

  lemma RecordStep(w: World, e: Event)
    requires e.Env? ==> Rely(w, e.next)
    ensures Apply(w, e).kcp.record == if e.SetRecord? then Some(e.record) else if e.ClearRecord? then None else w.kcp.record
  {
  }

  /** Nothing is recorded over a record. */
  lemma RecordedOnNone(worlds: seq<World>, trace: seq<Event>, i: nat)
    requires LegalRun(worlds, trace) && i < |trace| && trace[i].SetRecord?
    ensures worlds[i].kcp.record.None?
  {
    assert Step(worlds, trace, i);
  }

  lemma {:induction false} RecordStays(worlds: seq<World>, trace: seq<Event>, i: nat, j: nat)
    requires LegalRun(worlds, trace) && i <= j <= |trace|
    requires worlds[i].kcp.record.Some?
    requires forall k | i <= k < j :: !trace[k].ClearRecord?
    ensures worlds[j].kcp.record == worlds[i].kcp.record
    decreases j - i
  {
    if i < j {
      StepAt(worlds, trace, i);
      RecordStep(worlds[i], trace[i]);
      if trace[i].SetRecord? {
        RecordedOnNone(worlds, trace, i);
      }
      RecordStays(worlds, trace, i + 1, j);
    }
  }

  /** Nothing but the record's own writes touches the record. */
  lemma {:induction false} RecordUntouched(worlds: seq<World>, trace: seq<Event>, i: nat, j: nat)
    requires LegalRun(worlds, trace) && i <= j <= |trace|
    requires forall k | i <= k < j :: !trace[k].SetRecord? && !trace[k].ClearRecord?
    ensures worlds[j].kcp.record == worlds[i].kcp.record
    decreases j - i
  {
    if i < j {
      StepAt(worlds, trace, i);
      RecordStep(worlds[i], trace[i]);
      RecordUntouched(worlds, trace, i + 1, j);
    }
  }

  /** The ID the EtcdMember object of that name carries. */
  function MemberID(w: World, c: string, name: string): Option<string> {
    if c in w.clusters && name in w.clusters[c].members then w.clusters[c].members[name].id else None
  }

  /** The record names the member an orphan leave is written on, by name and by the ID the object
      carries at that moment. */
  predicate Names(record: Option<OrphanRecord>, w: World, e: Event)
    requires OrphanLeave(e)
  {
    record.Some? && record.value.Record? && record.value.name == e.name && MemberID(w, e.c, e.name) == Some(record.value.id)
  }

  ghost predicate StoredBy(worlds: seq<World>, record: OrphanRecord, j: nat, i: nat)
    requires i < |worlds|
  {
    j <= i && worlds[j].kcp.record == Some(record)
  }

  lemma {:induction false} RecordStood(worlds: seq<World>, trace: seq<Event>, i: nat, record: OrphanRecord) returns (j: nat)
    requires LegalRun(worlds, trace) && i <= |trace| && record in worlds[i].records
    ensures StoredBy(worlds, record, j, i)
  {
    if i == 0 {
      j := 0;
    } else {
      LegalAt(worlds, trace, i - 1);
      if record in worlds[i - 1].records {
        j := RecordStood(worlds, trace, i - 1, record);
      } else {
        j := i;
      }
    }
  }

  /** spec.leave of an orphan is written only on a member that a record names by name and ID, and
      that record stood on the KairosControlPlane. */
  lemma OrphanLeaveMatchesRecord(worlds: seq<World>, trace: seq<Event>, i: nat)
    requires LegalRun(worlds, trace) && i < |trace| && OrphanLeave(trace[i])
    ensures Names(Some(trace[i].purpose.record), worlds[i], trace[i])
    ensures exists j :: StoredBy(worlds, trace[i].purpose.record, j, i)
  {
    LegalAt(worlds, trace, i);
    assert RevisionsUpTo(worlds[i].clusters[trace[i].c], worlds[i].step);
    var j := RecordStood(worlds, trace, i, trace[i].purpose.record);
  }

  ghost predicate NotEnded(trace: seq<Event>, j: nat, i: nat) {
    j <= i <= |trace| && forall k | j <= k < i :: !trace[k].ClearRecord?
  }

  /** Event l, since moment j, recorded a removal that was not ended by moment i. */
  ghost predicate Recorded(trace: seq<Event>, l: nat, j: nat, i: nat) {
    j <= l < i <= |trace| && trace[l].SetRecord? && NotEnded(trace, l + 1, i)
  }

  /** What is on record: what was, unless that was ended, and then the last thing recorded since. */
  lemma {:induction false} RecordNow(worlds: seq<World>, trace: seq<Event>, j: nat, i: nat)
    requires LegalRun(worlds, trace) && j <= i <= |trace| && worlds[j].kcp.record.Some?
    ensures NotEnded(trace, j, i) ==> worlds[i].kcp.record == worlds[j].kcp.record
    ensures forall l: nat | Recorded(trace, l, j, i) :: worlds[i].kcp.record == Some(trace[l].record)
    ensures !NotEnded(trace, j, i) && worlds[i].kcp.record.Some? ==> exists l: nat :: Recorded(trace, l, j, i)
  {
    if j < i {
      var e := trace[i - 1];
      StepAt(worlds, trace, i - 1);
      RecordStep(worlds[i - 1], e);
      if e.SetRecord? {
        RecordedOnNone(worlds, trace, i - 1);
      }
      RecordNow(worlds, trace, j, i - 1);
      forall l: nat | Recorded(trace, l, j, i)
        ensures worlds[i].kcp.record == Some(trace[l].record)
      {
        assert l == i - 1 || Recorded(trace, l, j, i - 1);
      }
      if !NotEnded(trace, j, i) && worlds[i].kcp.record.Some? {
        if e.SetRecord? {
          assert Recorded(trace, i - 1, j, i);
        } else {
          assert NotEnded(trace, j, i - 1) ==> NotEnded(trace, j, i);
          var l: nat :| Recorded(trace, l, j, i - 1);
          assert Recorded(trace, l, j, i);
        }
      }
    }
  }

  /** Two records of one member: the same name and the same ID. */
  predicate SameMember(a: OrphanRecord, b: OrphanRecord) {
    a.Record? && b.Record? && a.name == b.name && a.id == b.id
  }

  /** Exactly when an orphan leave, written on the record as it was at moment j, is on the member on
      record now: unless that record was ended since, and the member was not recorded again. A
      snapshot of the KairosControlPlane that is still current is enough. */
  lemma LeaveIsOnRecordIff(worlds: seq<World>, trace: seq<Event>, j: nat, i: nat)
    requires LegalRun(worlds, trace) && i < |trace| && OrphanLeave(trace[i])
    requires StoredBy(worlds, trace[i].purpose.record, j, i)
    ensures Names(worlds[i].kcp.record, worlds[i], trace[i]) <==>
            NotEnded(trace, j, i) || exists l: nat :: Recorded(trace, l, j, i) && SameMember(trace[l].record, trace[i].purpose.record)
    ensures worlds[i].kcp.rv == worlds[j].kcp.rv ==> Names(worlds[i].kcp.record, worlds[i], trace[i])
  {
    OrphanLeaveMatchesRecord(worlds, trace, i);
    RecordNow(worlds, trace, j, i);
    SameRevisionSameKcp(worlds, trace, j, i);
  }

  /** A revision tells the object: it changes with every write. */
  lemma {:induction false} SameRevisionSameKcp(worlds: seq<World>, trace: seq<Event>, j: nat, i: nat)
    requires LegalRun(worlds, trace) && j <= i <= |trace|
    ensures worlds[j].kcp.rv <= worlds[i].kcp.rv <= worlds[i].step
    ensures worlds[i].kcp.rv == worlds[j].kcp.rv ==> worlds[i].kcp == worlds[j].kcp
  {
    InvAt(worlds, trace, i);
    if j < i {
      LegalAt(worlds, trace, i - 1);
      SameRevisionSameKcp(worlds, trace, j, i - 1);
    }
  }

  /** One removal at a time: two orphan leaves that are each on the member on record then are of the
      same member under the same ID, or the first one's record was ended in between, whatever
      crashed and whatever name k0s handed to another member in the meantime. */
  lemma OneRemovalAtATime(worlds: seq<World>, trace: seq<Event>, i: nat, j: nat)
    requires LegalRun(worlds, trace) && i < j < |trace|
    requires OrphanLeave(trace[i]) && OrphanLeave(trace[j])
    requires Names(worlds[i].kcp.record, worlds[i], trace[i]) && Names(worlds[j].kcp.record, worlds[j], trace[j])
    requires NotEnded(trace, i, j)
    ensures trace[i].name == trace[j].name
    ensures MemberID(worlds[i], trace[i].c, trace[i].name) == MemberID(worlds[j], trace[j].c, trace[j].name)
  {
    RecordStays(worlds, trace, i, j);
  }

  // ---- the leave handshake ----

  /** The ack is younger than the forced request it answers. */
  predicate Younger(w: World, k: string, c: string, node: string, entry: Entry) {
    k in w.forced && (w.forced[k].cluster == c && w.forced[k].node == node ==> entry.rv > w.forced[k].at)
  }

  /** A hook goes on a node's ack only if that ack stood in the leave ConfigMap of the cluster when
      the pass read it, and was written after that Machine's own forced request, where the request
      went to the same node name in the same cluster. */
  lemma AckYoungerThanRequest(worlds: seq<World>, trace: seq<Event>, i: nat)
    requires LegalRun(worlds, trace) && i < |trace|
    requires trace[i].DropHook? && trace[i].why.OnAck?
    ensures exists j :: Stood(worlds, trace, trace[i].why, j, i)
    ensures Younger(worlds[i], trace[i].machine, trace[i].why.c, trace[i].why.node, trace[i].why.entry)
  {
    LegalAt(worlds, trace, i);
    var j := ReleaseStood(worlds, trace, i);
    var why, seen := trace[i].why, worlds[i].seen;
    var leaves :| LeavesAre(why.c, leaves) in seen && why.node in leaves && leaves[why.node] == why.entry;
    assert FreshLeaves(leaves, why.c, worlds[i].forced);
  }

  /** e annotates a Machine so. */
  predicate Writes(e: Event, note: Note) {
    match note
    case RequestedNote(k, t) => e == StampRequested(k, t)
    case UnreachableNote(k, t) => e == StampUnreachable(k, t)
    case DelegatedNote(k, t) => e.Delegate? && e.machine == k && e.at == Some(t)
    case MemberIDNote(k, id) => e.Delegate? && e.machine == k && e.id == Some(id)
  }

  ghost predicate WrittenAt(trace: seq<Event>, note: Note, j: nat, i: nat) {
    j < i <= |trace| && Writes(trace[j], note)
  }

  lemma NoteStep(w: World, e: Event, note: Note)
    requires (e.Env? ==> Rely(w, e.next)) && note in Apply(w, e).notes && note !in w.notes
    ensures Writes(e, note)
  {
  }

  lemma {:induction false} NoteStood(worlds: seq<World>, trace: seq<Event>, i: nat, note: Note)
    requires LegalRun(worlds, trace) && i <= |trace| && note in worlds[i].notes
    ensures note in worlds[0].notes || exists j: nat :: WrittenAt(trace, note, j, i)
  {
    if i > 0 && note !in worlds[0].notes {
      StepAt(worlds, trace, i - 1);
      if note in worlds[i - 1].notes {
        NoteStood(worlds, trace, i - 1, note);
        var j: nat :| WrittenAt(trace, note, j, i - 1);
        assert WrittenAt(trace, note, j, i);
      } else {
        NoteStep(worlds[i - 1], trace[i - 1], note);
        assert WrittenAt(trace, note, i - 1, i);
      }
    }
  }

  /** A pass that began at least that long ago wrote the note, or the run started with it. */
  ghost predicate Waited(worlds: seq<World>, trace: seq<Event>, note: Note, bound: nat, i: nat)
    requires i < |trace| && |worlds| == |trace| + 1
  {
    note in worlds[0].notes || exists j: nat :: WrittenAt(trace, note, j, i) && worlds[i].now > worlds[j].passAt + bound
  }

  lemma NoteWaited(worlds: seq<World>, trace: seq<Event>, i: nat, note: Note, t: Stamp, bound: nat)
    requires LegalRun(worlds, trace) && i < |trace| && note in worlds[i].notes && Past(Some(t), worlds[i].now, bound)
    requires (note.UnreachableNote? || note.DelegatedNote?) && note.stamp == t
    ensures Waited(worlds, trace, note, bound, i)
  {
    NoteStood(worlds, trace, i, note);
    if note !in worlds[0].notes {
      var j: nat :| WrittenAt(trace, note, j, i);
      LegalAt(worlds, trace, j);
    }
  }

  /** Giving up on a silent workload cluster waits out its bound: fifteen minutes after a pass that
      found it silent before a leave could be requested, or ten after one that started the
      delegation, and each of them of this very Machine. */
  lemma GivingUpIsBounded(worlds: seq<World>, trace: seq<Event>, i: nat)
    requires LegalRun(worlds, trace) && i < |trace| && trace[i].DropHook?
    ensures var k, why := trace[i].machine, trace[i].why;
            && (why.Unreachable? ==> Waited(worlds, trace, UnreachableNote(k, why.since), 15 * 60, i))
            && (why.Capped? ==> Waited(worlds, trace, DelegatedNote(k, why.since), 10 * 60, i))
  {
    LegalAt(worlds, trace, i);
    var k, why := trace[i].machine, trace[i].why;
    if why.Unreachable? {
      NoteWaited(worlds, trace, i, UnreachableNote(k, why.since), why.since, 15 * 60);
    } else if why.Capped? {
      NoteWaited(worlds, trace, i, DelegatedNote(k, why.since), why.since, 10 * 60);
    }
  }

  // ---- all of it ----

  /** What is promised of event i. */
  ghost predicate Promised(worlds: seq<World>, trace: seq<Event>, i: nat)
    requires i < |trace| && |worlds| == |trace| + 1
  {
    var e, w := trace[i], worlds[i];
    && Founded(worlds, trace, i)
    && (CheckOf(e).Some? ==>
          && LeavesQuorum(CheckOf(e).value, TargetOf(e))
          && (exists j :: ListedAt(worlds, trace, CheckOf(e).value, j, i))
          && (exists j :: ReportedAt(worlds, trace, CheckOf(e).value, j, i)))
    && (OrphanLeave(e) ==> Names(Some(e.purpose.record), w, e) && exists j :: StoredBy(worlds, e.purpose.record, j, i))
    && (e.DropHook? && e.why.OnAck? ==> Younger(w, e.machine, e.why.c, e.why.node, e.why.entry))
    && (e.DropHook? && e.why.Unreachable? ==> Waited(worlds, trace, UnreachableNote(e.machine, e.why.since), 15 * 60, i))
    && (e.DropHook? && e.why.Capped? ==> Waited(worlds, trace, DelegatedNote(e.machine, e.why.since), 10 * 60, i))
  }

  lemma AllKept(worlds: seq<World>, trace: seq<Event>)
    requires LegalRun(worlds, trace)
    ensures forall i | 0 <= i < |trace| :: Promised(worlds, trace, i)
  {
    forall i | 0 <= i < |trace|
      ensures Promised(worlds, trace, i)
    {
      AllFounded(worlds, trace, i);
      if CheckOf(trace[i]).Some? {
        RemovalStartsSafe(worlds, trace, i);
      }
      if OrphanLeave(trace[i]) {
        OrphanLeaveMatchesRecord(worlds, trace, i);
      }
      if trace[i].DropHook? {
        GivingUpIsBounded(worlds, trace, i);
        if trace[i].why.OnAck? {
          AckYoungerThanRequest(worlds, trace, i);
        }
      }
    }
  }
}
