/**
 The etcd-leave handshake (internal/controllers/controlplane/ha_leave.go, ha_leave_member.go,
 ha_leave_etcdmember.go and ha_leave_unregistered.go): one pass over one departing Machine,
 the reconciler's `target`.

 The Machine and the KairosControlPlane are snapshots and may be stale. The addresses tried
 before the endpoint are a parameter (`vias`).
*/
module HaLeave {
  import opened Wrappers
  import opened EtcdTypes
  import opened HaWorld
  import opened HaRuns
  import opened HaApi
  import opened HaIdentity

  /** Why a pass ends in an error: another cluster answered or the freeze stands, nothing
      answered, or a write failed. */
  datatype Fault = IdentityChanged | Silent | WriteFailed

  datatype Conn = Connected(client: Client, leaves: map<string, Entry>) | Foreign | NoConn

  /** A connection the code may act on is to the pinned cluster. */
  ghost predicate Trusted(w: World, kcp: Kcp, conn: Conn) {
    conn.Connected? ==> !Frozen(kcp) && OnPin(w, kcp.pin, conn.client.cluster)
  }

  /** And the leave ConfigMap was read through it. */
  ghost predicate WithLeaves(w: World, conn: Conn) {
    conn.Connected? ==> LeavesAre(conn.client.cluster, conn.leaves) in w.seen
  }

  /** The acks a connection read. */
  predicate Acked(conn: Conn, node: string) {
    conn.Connected? && node in conn.leaves && conn.leaves[node].value == Left
  }

  /** verifiedLeaveConn: the leave ConfigMap is read, when asked for, and the identity checked,
      through one client. */
  method VerifiedConn(r: Reconciler, via: string, readCM: bool) returns (conn: Conn)
    requires r.Valid() && r.scope != Nothing && !Frozen(r.kcp) && r.kcp.pin != ""
    modifies r`trace, r`w, r`worlds, r`trouble, r`tried, r`kcp, r`identityCheckedAt
    ensures r.Valid() && Unread(old(r.w), r.w) && Trusted(r.w, r.kcp, conn) && SameButMismatch(old(r.kcp), r.kcp)
    ensures r.tried == old(r.tried) + [via] && old(r.trace) <= r.trace
    ensures conn.Connected? ==> conn.client.via == via
    ensures if readCM then WithLeaves(r.w, conn) else conn.Connected? ==> conn.leaves == map[]
    ensures conn != Foreign ==> r.kcp == old(r.kcp)
    ensures conn == NoConn || (conn == Foreign && !Frozen(r.kcp)) ==> r.trouble
    ensures old(r.trouble) ==> r.trouble
  {
    conn := NoConn;
    var c := r.BuildClient(via);
    if c.Some? {
      var leaves := Some(map[]);
      if readCM {
        leaves := r.ReadLeaves(c.value);
      }
      if leaves.Some? {
        conn := Identified(r, c.value, leaves.value);
      }
    }
  }

  /** What was read through a client counts once its cluster is known to be the pinned one. */
  method Identified(r: Reconciler, c: Client, leaves: map<string, Entry>) returns (conn: Conn)
    requires r.Valid() && r.scope != Nothing && !Frozen(r.kcp) && r.kcp.pin != ""
    modifies r`trace, r`w, r`worlds, r`trouble, r`kcp, r`identityCheckedAt
    ensures r.Valid() && Unread(old(r.w), r.w) && Trusted(r.w, r.kcp, conn) && SameButMismatch(old(r.kcp), r.kcp)
    ensures (conn.Connected? ==> conn == Connected(c, leaves)) && old(r.trace) <= r.trace
    ensures conn != Foreign ==> r.kcp == old(r.kcp)
    ensures conn == NoConn || (conn == Foreign && !Frozen(r.kcp)) ==> r.trouble
    ensures old(r.trouble) ==> r.trouble
  {
    var v := VerifyPinned(r, c);
    conn := if v == Verified then Connected(c, leaves) else if v == Changed then Foreign else NoConn;
  }

  /** connectVerified: each member in turn, then the endpoint; the first that answers as the
      pinned cluster is used, and the first that answers as another ends the pass. No path is
      given up on before all were tried. */
  method Connect(r: Reconciler, vias: seq<string>, readCM: bool) returns (conn: Conn)
    requires r.Valid() && r.scope != Nothing
    modifies r`trace, r`w, r`worlds, r`trouble, r`tried, r`kcp, r`identityCheckedAt
    ensures r.Valid() && Unread(old(r.w), r.w) && Trusted(r.w, r.kcp, conn) && SameButMismatch(old(r.kcp), r.kcp)
    ensures old(r.trace) <= r.trace && old(r.tried) <= r.tried <= old(r.tried) + vias + [ENDPOINT]
    ensures conn == NoConn && r.kcp.pin != "" ==> r.tried == old(r.tried) + vias + [ENDPOINT]
    ensures conn.Connected? ==> r.tried != [] && conn.client.via == r.tried[|r.tried| - 1]
    ensures readCM ==> WithLeaves(r.w, conn)
    ensures conn != Foreign ==> r.kcp == old(r.kcp) && !Frozen(r.kcp)
    ensures Frozen(old(r.kcp)) ==> conn == Foreign && r.trace == old(r.trace)
    ensures !Frozen(old(r.kcp)) && r.kcp.pin == "" ==> conn == NoConn && r.trace == old(r.trace)
    ensures (conn == NoConn && r.kcp.pin != "") || (conn == Foreign && !Frozen(r.kcp)) ==> r.trouble
    ensures old(r.trouble) ==> r.trouble
  {
    if Frozen(r.kcp) {
      return Foreign;
    }
    if r.kcp.pin == "" {
      return NoConn;
    }
    conn := NoConn;
    for i := 0 to |vias|
      invariant r.Valid() && Unread(old(r.w), r.w) && r.kcp == old(r.kcp) && (old(r.trouble) ==> r.trouble)
      invariant old(r.trace) <= r.trace && r.tried == old(r.tried) + vias[..i]
    {
      conn := VerifiedConn(r, vias[i], readCM);
      if conn != NoConn {
        return;
      }
    }
    conn := VerifiedConn(r, ENDPOINT, readCM);
  }

  // ---- what a pass comes to ----

  /** The last thing done was to drop the Machine's hook. */
  ghost predicate Dropped(trace: seq<Event>, machine: string) {
    trace != [] && trace[|trace| - 1].DropHook? && trace[|trace| - 1].machine == machine
  }

  /** What one pass over a departing Machine came to: the Machine as it was read (`m`), when the pass
      began and where its trace does (`from`), and how it ended. Calm: no call reported a failure, and
      no freeze stands. */
  datatype LeavePass = LeavePass(
    m: Machine, pin: string, machines: seq<Machine>, began: nat, from: nat,
    w: World, trace: seq<Event>, target: Machine, done: bool, err: Option<Fault>, calm: bool)

  /** The pass dropped the hook. */
  ghost predicate Let(o: LeavePass) {
    o.done && o.err == None && o.m.hook
  }

  /** On these grounds. */
  ghost function Why(o: LeavePass): Release {
    if o.trace != [] && o.trace[|o.trace| - 1].DropHook? then o.trace[|o.trace| - 1].why else NotK0s
  }

  /** The name a Machine's member goes by: its Node's, or the one it renders, in lower case. */
  ghost function Called(m: Machine): string {
    if m.nodeRef.Some? then m.nodeRef.value else ToLower(m.hostname)
  }

  /** No other Machine reports the member's address. */
  ghost predicate Unclaimed(x: EtcdMember, m: Machine, machines: seq<Machine>) {
    x.peer.None? || forall o | o in machines && o.name != m.name :: Some(x.peer.value) !in o.addresses
  }

  /** Nor does any go by its name. */
  ghost predicate NobodyElses(x: EtcdMember, m: Machine, machines: seq<Machine>) {
    Unclaimed(x, m, machines) && forall o | o in machines && o.name != m.name :: Called(o) != Called(m)
  }

  /** The pass read this object. */
  ghost predicate LookedUp(o: LeavePass, x: EtcdMember) {
    exists i | o.from <= i < |o.trace| :: o.trace[i] == Saw(MemberIs(o.pin, x))
  }

  /** And set spec.leave on the member of that name, for its Machine. */
  ghost predicate AskedFor(o: LeavePass, name: string) {
    exists i | o.from <= i < |o.trace| :: o.trace[i] == SetLeave(o.pin, name, true, ForMachine(o.m.name))
  }

  /** A stamp had waited out a bound when the pass began. */
  ghost predicate Overdue(stamp: Option<Stamp>, began: nat, bound: nat) {
    exists t: nat :: stamp == Some(At(t)) && began > t + bound
  }

  /** Before a leave is requested. For a registered Machine it is requested once the pinned cluster
      answers, and the hook stays. For one without a Node it is requested only under a label, for a
      member of that name that was read, is Joined for all that is known, and is nobody else's; and
      the hook of such a Machine stays. The hook goes on silence only after 15 minutes of it. */
  ghost predicate Requesting(o: LeavePass) {
    var m := o.m;
    && (Let(o) ==> Dropped(o.trace, o.m.name))
    && (m.nodeRef.Some? && o.pin != "" && o.calm ==> !o.done && o.err == None)
    && (m.nodeRef.None? ==> forall x | MemberIs(o.pin, x) in o.w.seen && !x.notJoined && NobodyElses(x, m, o.machines) :: !o.done)
    && (m.nodeRef.None? && !o.done && o.err == None ==>
          IsLabel(m.hostname) && exists x :: LookedUp(o, x) && x.name == ToLower(m.hostname) && !x.notJoined && NobodyElses(x, m, o.machines))
    && (o.err == Some(Silent) ==> !o.done && o.target.unreachableSince.Some? && !Overdue(m.unreachableSince, o.began, 900))
    && (Let(o) && Why(o).Unreachable? ==>
          && Why(o).since.At? && o.w.now > Why(o).since.t + 900
          && (o.calm ==> o.pin == "" || (m.nodeRef.None? && !IsLabel(m.hostname))))
    && (o.err.Some? && o.calm ==> o.pin == "" || (m.nodeRef.None? && !IsLabel(m.hostname)))
  }

  /** A late node's member x was read. It is the Machine's own if it has an ID, which is the one on
      record if there is one, and no other Machine reports its address. Then k0s is asked for it, and
      the hook goes only once k0s reports it not joined, or at the cap. Any other is left alone. */
  ghost predicate HandedOver(o: LeavePass, x: EtcdMember) {
    if x.id.Some? && (o.m.memberID.None? || o.m.memberID == x.id) && Unclaimed(x, o.m, o.machines) then
      && (Let(o) ==> Why(o).Capped? || (Why(o).NotJoined? && x.notJoined))
      && (o.calm || (!o.done && o.err == None) ==> x.leave || AskedFor(o, x.name))
      && (!o.done && o.err == None ==> o.target.memberID == x.id && !x.notJoined)
    else
      o.done && (Let(o) ==> Why(o).CannotTell?)
  }

  /** Once the node is late: its member is looked up wherever the pinned cluster answers, and the
      wait for k0s ends after ten minutes. */
  ghost predicate Delegating(o: LeavePass, connected: bool) {
    && (Let(o) ==> Dropped(o.trace, o.m.name))
    && (forall x | MemberIs(o.pin, x) in o.w.seen :: x.name == Called(o.m) && HandedOver(o, x))
    && (connected && o.calm ==>
          || (exists x :: MemberIs(o.pin, x) in o.w.seen)
          || (o.done && (NoMember(o.pin, Called(o.m)) in o.w.seen || NoMemberAPI(o.pin) in o.w.seen) &&
              (Let(o) ==> Why(o).NoSuchMember? || Why(o).CannotTell?)))
    && (!o.done && o.err != Some(WriteFailed) ==> o.target.delegatedAt.Some? && !Overdue(o.m.delegatedAt, o.began, 600))
    && (Let(o) && Why(o).Capped? ==> Why(o).since.At? && o.w.now > Why(o).since.t + 600)
    && (o.err.Some? && o.calm ==> !connected)
    && (!connected && !o.done ==> o.err.Some?)
  }

  /** After the first request. An ack in the leave ConfigMap ends the leave, and so does the silence
      of a registered node in the reports; five minutes after the request k0s takes over; and until
      then the request is kept up. */
  ghost predicate Awaiting(o: LeavePass, conn: Conn, late: bool) {
    var node := Called(o.m);
    var acked := conn.Connected? && node in conn.leaves && conn.leaves[node].value == Left;
    && (Let(o) ==> Dropped(o.trace, o.m.name))
    && (acked ==> o.done && !late && (Let(o) ==> Why(o).OnAck?))
    && (conn.Connected? && !acked && o.m.nodeRef.Some? && o.calm ==>
          exists reports :: ReportsAre(reports) in o.w.seen && (node !in reports ==> o.done && (Let(o) ==> Why(o).NotReported?)))
    && (late ==> exists t: nat :: o.m.requestedAt == Some(At(t)) && o.w.now > t + 300)
    && (late ==> Delegating(o, conn.Connected?))
    && (Overdue(o.m.requestedAt, o.began, 300) && !o.done && o.err != Some(IdentityChanged) ==> late)
    && (o.done && !late ==> conn.Connected? && (acked || (o.m.nodeRef.Some? && (Let(o) ==> Why(o).NotReported?))))
    && (!o.done && o.err == None && !late ==> Asked(o.w, o.pin, node))
    && (o.err.Some? && o.calm ==> conn == NoConn)
  }

  /** What the rest of a pass comes to, the whole pass does. */
  lemma SoonerRequesting(o: LeavePass, began: nat, from: nat)
    requires began <= o.began && from <= o.from && Requesting(o)
    ensures Requesting(o.(began := began, from := from))
  {
    assert forall x :: LookedUp(o, x) ==> LookedUp(o.(began := began, from := from), x);
  }

  lemma SoonerDelegating(o: LeavePass, began: nat, from: nat, connected: bool)
    requires began <= o.began && from <= o.from && Delegating(o, connected)
    ensures Delegating(o.(began := began, from := from), connected)
  {
    assert forall x :: HandedOver(o, x) ==> HandedOver(o.(began := began, from := from), x);
  }

  lemma SoonerAwaiting(o: LeavePass, began: nat, from: nat, conn: Conn, late: bool)
    requires began <= o.began && from <= o.from && Awaiting(o, conn, late)
    ensures Awaiting(o.(began := began, from := from), conn, late)
  {
    if late {
      SoonerDelegating(o, began, from, conn.Connected?);
    }
  }

  /** The Machine's leave is the one the pass may work on. */
  ghost predicate AtWork(s: Scope, k: Kcp, m: Machine) {
    s.LeaveOf? && !Frozen(k) && s.leave == CaseOf(m, k, s.leave.late)
  }

  // ---- on what the hook may be dropped ----

  lemma AckDrops(w: World, m: Machine, k: Kcp, s: Scope, c: string, leaves: map<string, Entry>)
    requires AtWork(s, k, m) && m.requestedAt.Some? && OnPin(w, k.pin, c) && LeavesAre(c, leaves) in w.seen
    requires LeaveNodeName(m) in leaves && leaves[LeaveNodeName(m)].value == Left
    ensures OnAck(c, LeaveNodeName(m), leaves[LeaveNodeName(m)]) in Droppable(w, m, k, s)
  {
  }

  lemma SilenceDrops(w: World, m: Machine, k: Kcp, s: Scope, c: string, reports: Reports)
    requires AtWork(s, k, m) && m.requestedAt.Some? && m.nodeRef.Some? && OnPin(w, k.pin, c) && ReportsAre(reports) in w.seen
    requires LeaveNodeName(m) !in reports
    ensures NotReported(c, LeaveNodeName(m)) in Droppable(w, m, k, s)
  {
  }

  lemma NotJoinedDrops(w: World, m: Machine, k: Kcp, s: Scope, member: EtcdMember)
    requires AtWork(s, k, m) && Judges(s.leave) && OnPin(w, k.pin, k.pin)
    requires MemberIs(k.pin, member) in w.seen && member.name == LeaveNodeName(m) && member.notJoined
    ensures NotJoined(k.pin, member) in Droppable(w, m, k, s)
  {
  }

  lemma DoubtDrops(w: World, m: Machine, k: Kcp, s: Scope, doubt: Doubt)
    requires AtWork(s, k, m) && Judges(s.leave) && OnPin(w, k.pin, k.pin)
    requires Doubted(w.seen, w.notes, m.name, k.pin, LeaveNodeName(m), doubt)
    ensures CannotTell(k.pin, LeaveNodeName(m), doubt) in Droppable(w, m, k, s)
  {
  }

  lemma NoMemberDrops(w: World, m: Machine, k: Kcp, s: Scope)
    requires AtWork(s, k, m) && Judges(s.leave) && OnPin(w, k.pin, k.pin) && NoMember(k.pin, LeaveNodeName(m)) in w.seen
    ensures NoSuchMember(k.pin, LeaveNodeName(m)) in Droppable(w, m, k, s)
  {
  }

  lemma UnreachableDrops(w: World, m: Machine, k: Kcp, s: Scope)
    requires AtWork(s, k, m) && m.requestedAt.None? && Past(m.unreachableSince, w.now, LEAVE_UNREACHABLE_BOUND)
    ensures Unreachable(m.unreachableSince.value) in Droppable(w, m, k, s)
  {
  }

  lemma CappedDrops(w: World, m: Machine, k: Kcp, s: Scope)
    requires AtWork(s, k, m) && m.requestedAt.Some? && s.leave.late && Past(m.delegatedAt, w.now, MEMBER_LEAVE_CAP)
    ensures Capped(m.delegatedAt.value) in Droppable(w, m, k, s)
  {
  }

  lemma LeaveCanBeAsked(w: World, m: Machine, k: Kcp, s: Scope, c: string, member: EtcdMember)
    requires AtWork(s, k, m) && m.requestedAt.Some? && s.leave.late && OnPin(w, k.pin, c) && MemberIs(c, member) in w.seen
    requires member.name == LeaveNodeName(m) && member.id.Some? && m.memberID == member.id
    ensures Leaving(c, member, true, ForMachine(m.name)) in Askable(w, k, m, s)
  {
  }

  /** The ID on record was recorded for this Machine. */
  lemma RecordedID(r: Reconciler)
    requires r.Valid()
    ensures r.target.memberID.Some? ==> MemberIDNote(r.target.name, r.target.memberID.value) in r.w.notes
  {
    HistoryInv(r.Story());
  }

  /** removeEtcdLeaveHook. */
  method RemoveEtcdLeaveHook(r: Reconciler, why: Release) returns (err: Option<Fault>)
    requires r.Valid() && why in Droppable(r.w, r.target, r.kcp, r.scope)
    modifies r`trace, r`w, r`worlds, r`trouble, r`target
    ensures r.Valid() && Still(old(r.w), r.w) && r.target == old(r.target).(hook := r.target.hook)
    ensures !old(r.target).hook ==> err == None && r.trace == old(r.trace)
    ensures old(r.target).hook && Frozen(r.kcp) ==> err == Some(IdentityChanged) && r.trace == old(r.trace)
    ensures old(r.target).hook && err == None ==>
              Dropped(r.trace, old(r.target).name) && r.trace[|r.trace| - 1].why == why && !r.target.hook
    ensures err != Some(Silent) && (!Frozen(r.kcp) ==> err == None || err == Some(WriteFailed))
    ensures r.trouble == (old(r.trouble) || err == Some(WriteFailed)) && old(r.trace) <= r.trace
  {
    if !r.target.hook {
      return None;
    }
    if Frozen(r.kcp) {
      return Some(IdentityChanged);
    }
    var ok := r.PatchHook(why);
    err := if ok then None else Some(WriteFailed);
  }

  /** Whether a stamp is older than the bound now; one that does not parse never is. */
  method Expired(r: Reconciler, stamp: Option<Stamp>, bound: nat) returns (b: bool)
    requires r.Valid()
    modifies r`trace, r`w, r`worlds
    ensures r.Valid() && Still(old(r.w), r.w) && old(r.trace) <= r.trace
    ensures b ==> Past(stamp, r.w.now, bound) && Overdue(stamp, r.w.now, bound)
    ensures Overdue(stamp, old(r.w).now, bound) ==> b
  {
    var now := r.Now();
    b := Past(stamp, now, bound);
  }

  /** etcdMemberPeerOwner. */
  method EtcdMemberPeerOwner(member: EtcdMember, machines: seq<Machine>, target: Machine) returns (owner: Option<Machine>)
    ensures owner.None? <==> Unclaimed(member, target, machines)
    ensures owner.Some? ==>
              owner.value in machines && owner.value.name != target.name && member.peer.Some? && Some(member.peer.value) in owner.value.addresses
  {
    if member.peer.None? {
      return None;
    }
    for i := 0 to |machines|
      invariant forall j | 0 <= j < i :: machines[j].name == target.name || Some(member.peer.value) !in machines[j].addresses
    {
      if machines[i].name != target.name && HasAddress(machines[i], member.peer.value) {
        return Some(machines[i]);
      }
    }
    return None;
  }

  /** otherMachineWithNodeName. */
  method OtherMachineWithNodeName(machines: seq<Machine>, target: Machine, node: string) returns (other: Option<Machine>)
    ensures other.None? <==> forall m | m in machines && m.name != target.name :: Called(m) != node
    ensures other.Some? ==> other.value in machines && other.value.name != target.name && Called(other.value) == node
  {
    for i := 0 to |machines|
      invariant forall j | 0 <= j < i :: machines[j].name == target.name || Called(machines[j]) != node
    {
      if machines[i].name != target.name && LeaveNodeName(machines[i]) == node {
        return Some(machines[i]);
      }
    }
    return None;
  }

  /** The Machine is the same but for annotations the pass added. */
  ghost predicate SameLeave(m: Machine, m': Machine) {
    && m'.name == m.name && m'.nodeRef == m.nodeRef && m'.hostname == m.hostname && m'.hook == m.hook
    && m'.requestedAt == m.requestedAt
  }

  /** stampAnnotationOnce, etcd-leave-unreachable-since. */
  method StampUnreachableOnce(r: Reconciler) returns (ok: bool)
    requires r.Valid() && r.scope.LeaveOf? && r.scope.leave.machine == r.target.name && !r.scope.leave.requested
    modifies r`trace, r`w, r`worlds, r`trouble, r`target
    ensures r.Valid() && Still(old(r.w), r.w) && old(r.trace) <= r.trace
    ensures SameLeave(old(r.target), r.target) && (ok ==> r.target.unreachableSince.Some?)
    ensures old(r.target).unreachableSince.Some? ==> r.target.unreachableSince == old(r.target).unreachableSince
    ensures r.trouble == (old(r.trouble) || !ok)
  {
    ok := true;
    if r.target.unreachableSince.None? {
      ok := r.StampUnreachableSince();
    }
  }

  /** leaveUnreachable: the hook is kept, but only for the bound. */
  method LeaveUnreachable(r: Reconciler) returns (done: bool, err: Option<Fault>)
    requires r.Valid() && AtWork(r.scope, r.kcp, r.target) && r.target.requestedAt.None?
    modifies r`trace, r`w, r`worlds, r`trouble, r`target
    ensures r.Valid() && Still(old(r.w), r.w) && (done || err.Some?) && old(r.trace) <= r.trace
    ensures done && err == None && old(r.target).hook ==>
              Dropped(r.trace, old(r.target).name) && r.trace[|r.trace| - 1].why.Unreachable? && Overdue(Some(r.trace[|r.trace| - 1].why.since), r.w.now, 900)
    ensures err == Some(Silent) ==> !done && r.target.unreachableSince.Some? && !Overdue(old(r.target).unreachableSince, old(r.w).now, 900)
    ensures err.Some? && err != Some(Silent) ==> r.trouble
    ensures old(r.trouble) ==> r.trouble
  {
    var ok := StampUnreachableOnce(r);
    done, err := false, Some(WriteFailed);
    if ok {
      done := Expired(r, r.target.unreachableSince, LEAVE_UNREACHABLE_BOUND);
      err := Some(Silent);
      if done {
        UnreachableDrops(r.w, r.target, r.kcp, r.scope);
        err := RemoveEtcdLeaveHook(r, Unreachable(r.target.unreachableSince.value));
      }
    }
  }

  /** Why the EtcdMember of an unregistered Machine's name is no member of it to leave, if it is
      none. */
  method NotHis(r: Reconciler, machines: seq<Machine>, member: EtcdMember) returns (why: Option<Release>)
    requires r.Valid() && AtWork(r.scope, r.kcp, r.target) && r.target.requestedAt.None? && r.target.nodeRef.None?
    requires OnPin(r.w, r.kcp.pin, r.kcp.pin) && member.name == LeaveNodeName(r.target) && MemberIs(r.kcp.pin, member) in r.w.seen
    ensures why.None? <==> !member.notJoined && NobodyElses(member, r.target, machines)
    ensures why.Some? ==> why.value in Droppable(r.w, r.target, r.kcp, r.scope)
    ensures why.Some? ==> (why.value.NotJoined? && NobodyElses(member, r.target, machines)) || why.value.CannotTell?
  {
    var node := LeaveNodeName(r.target);
    var owner := EtcdMemberPeerOwner(member, machines, r.target);
    var other := OtherMachineWithNodeName(machines, r.target, node);
    if owner.Some? || other.Some? {
      var doubt := if owner.Some? then OtherAddress(member, owner.value) else OtherNode(member, other.value);
      DoubtDrops(r.w, r.target, r.kcp, r.scope, doubt);
      return Some(CannotTell(r.kcp.pin, node, doubt));
    }
    if member.notJoined {
      NotJoinedDrops(r.w, r.target, r.kcp, r.scope, member);
      return Some(NotJoined(r.kcp.pin, member));
    }
    return None;
  }

  /** The member's ID, if it has one and none is on record yet. */
  method RecordID(r: Reconciler, member: EtcdMember) returns (ok: bool)
    requires r.Valid() && AtWork(r.scope, r.kcp, r.target) && r.target.requestedAt.None? && r.target.nodeRef.None?
    modifies r`trace, r`w, r`worlds, r`trouble, r`target
    ensures r.Valid() && Still(old(r.w), r.w) && old(r.trace) <= r.trace && SameLeave(old(r.target), r.target)
    ensures ok ==> r.target.memberID == if old(r.target).memberID.Some? then old(r.target).memberID else member.id
    ensures r.trouble == (old(r.trouble) || !ok)
  {
    ok := true;
    if member.id.Some? && r.target.memberID.None? {
      var at;
      ok, at := r.StampDelegate(false, member.id);
    }
  }

  /** The EtcdMember of an unregistered Machine's name was read. */
  method InspectMember(r: Reconciler, machines: seq<Machine>, member: EtcdMember)
    returns (proceed: bool, done: bool, err: Option<Fault>)
    requires r.Valid() && AtWork(r.scope, r.kcp, r.target) && r.target.requestedAt.None? && r.target.nodeRef.None?
    requires OnPin(r.w, r.kcp.pin, r.kcp.pin) && member.name == LeaveNodeName(r.target) && MemberIs(r.kcp.pin, member) in r.w.seen
    modifies r`trace, r`w, r`worlds, r`trouble, r`target
    ensures r.Valid() && Still(old(r.w), r.w) && old(r.trace) <= r.trace && (proceed ==> SameLeave(old(r.target), r.target))
    ensures err != Some(Silent) && (proceed || done || err.Some?)
    ensures proceed ==> !member.notJoined && NobodyElses(member, old(r.target), machines) &&
                          r.target.memberID == (if old(r.target).memberID.Some? then old(r.target).memberID else member.id)
    ensures !member.notJoined && NobodyElses(member, old(r.target), machines) ==> !done && (proceed || r.trouble)
    ensures done && err == None && old(r.target).hook ==>
              Dropped(r.trace, old(r.target).name) && (r.trace[|r.trace| - 1].why.NotJoined? || r.trace[|r.trace| - 1].why.CannotTell?)
    ensures err.Some? ==> r.trouble
    ensures old(r.trouble) ==> r.trouble
  {
    var why := NotHis(r, machines, member);
    proceed, done, err := false, true, None;
    if why.Some? {
      err := RemoveEtcdLeaveHook(r, why.value);
    } else {
      proceed := RecordID(r, member);
      done, err := false, if proceed then None else Some(WriteFailed);
    }
  }

  /** What a read of one member's object came to. */
  ghost predicate IsRead(w: World, c: string, name: string, read: Read<EtcdMember>) {
    match read
    case Found(m) => m.name == name && MemberIs(c, m) in w.seen
    case NotFound => NoMember(c, name) in w.seen
    case NoAPI => NoMemberAPI(c) in w.seen
    case ReadFailed => false
  }

  /** No member's object was read yet. */
  ghost predicate NoneRead(w: World) {
    forall f | f in w.seen :: !f.MemberIs?
  }

  /** The member is not surely the Machine's: another one has its address, or its ID is missing or not
      the one on record. */
  ghost predicate Doubtful(x: EtcdMember, m: Machine, owner: Option<Machine>) {
    if owner.Some? then owner.value.name != m.name && x.peer.Some? && Some(x.peer.value) in owner.value.addresses
    else x.id.None? || (m.memberID.Some? && m.memberID != x.id)
  }

  function DoubtOf(read: Read<EtcdMember>, owner: Option<Machine>, recorded: Option<string>): Doubt {
    if !read.Found? then Unserved
    else if owner.Some? then OtherAddress(read.value, owner.value)
    else if read.value.id.None? then NoID(read.value)
    else OtherID(read.value, recorded.GetOr(""))
  }

  function WordOn(m: Machine, pin: string, read: Read<EtcdMember>, owner: Option<Machine>): Release {
    if read.NotFound? then NoSuchMember(pin, LeaveNodeName(m)) else CannotTell(pin, LeaveNodeName(m), DoubtOf(read, owner, m.memberID))
  }

  lemma WordDrops(w: World, m: Machine, k: Kcp, s: Scope, read: Read<EtcdMember>, owner: Option<Machine>)
    requires AtWork(s, k, m) && Judges(s.leave) && OnPin(w, k.pin, k.pin) && IsRead(w, k.pin, LeaveNodeName(m), read)
    requires (read.Found? ==> Doubtful(read.value, m, owner)) && (m.memberID.Some? ==> MemberIDNote(m.name, m.memberID.value) in w.notes)
    ensures WordOn(m, k.pin, read, owner) in Droppable(w, m, k, s)
  {
  }

  /** There is no member that is surely this Machine's: the hook goes on what was read of it. */
  method LeaveAlone(r: Reconciler, read: Read<EtcdMember>, owner: Option<Machine>) returns (err: Option<Fault>)
    requires r.Valid() && AtWork(r.scope, r.kcp, r.target) && Judges(r.scope.leave)
    requires OnPin(r.w, r.kcp.pin, r.kcp.pin) && IsRead(r.w, r.kcp.pin, LeaveNodeName(r.target), read)
    requires read.Found? ==> Doubtful(read.value, r.target, owner)
    modifies r`trace, r`w, r`worlds, r`trouble, r`target
    ensures r.Valid() && Still(old(r.w), r.w) && old(r.trace) <= r.trace && err != Some(Silent)
    ensures err == None && old(r.target).hook ==>
              && Dropped(r.trace, old(r.target).name)
              && if read.NotFound? then r.trace[|r.trace| - 1].why.NoSuchMember? else r.trace[|r.trace| - 1].why.CannotTell?
    ensures err.Some? ==> r.trouble
    ensures old(r.trouble) ==> r.trouble
  {
    RecordedID(r);
    WordDrops(r.w, r.target, r.kcp, r.scope, read, owner);
    err := RemoveEtcdLeaveHook(r, WordOn(r.target, r.kcp.pin, read, owner));
  }

  /** inspectUnregisteredLeave: before the first request for a Machine without a Node. The hook
      goes only on the word of the pinned cluster; and a request goes on only under a name that
      is the node's own and no other Machine's. */
  method InspectUnregisteredLeave(r: Reconciler, machines: seq<Machine>, client: Client)
    returns (proceed: bool, done: bool, err: Option<Fault>)
    requires r.Valid() && AtWork(r.scope, r.kcp, r.target) && OnPin(r.w, r.kcp.pin, client.cluster) && NoneRead(r.w)
    requires r.target.requestedAt.None? && r.target.nodeRef.None?
    modifies r`trace, r`w, r`worlds, r`trouble, r`target
    ensures r.Valid() && Quiet(old(r.w), r.w) && old(r.trace) <= r.trace && (old(r.trouble) ==> r.trouble)
    ensures proceed ==> SameLeave(old(r.target), r.target) && IsLabel(r.target.hostname)
    ensures proceed ==>
              exists i, x | |old(r.trace)| <= i < |r.trace| && r.trace[i] == Saw(MemberIs(r.kcp.pin, x)) ::
                x.name == ToLower(old(r.target).hostname) && !x.notJoined && NobodyElses(x, old(r.target), machines)
    ensures !proceed ==> done || err.Some?
    ensures !proceed ==>
              Requesting(LeavePass(old(r.target), r.kcp.pin, machines, old(r.w).now, |old(r.trace)|, r.w, r.trace, r.target, done, err, !r.trouble))
  {
    proceed := false;
    if !IsLabel(r.target.hostname) {
      done, err := LeaveUnreachable(r);
      return;
    }
    var read := r.GetMember(client, LeaveNodeName(r.target));
    ghost var n, t := |r.trace|, r.w.now;
    proceed, done, err := InspectRead(r, machines, read);
    if proceed {
      assert r.trace[n - 1] == r.trace[..n][n - 1];
    } else {
      SoonerRequesting(LeavePass(old(r.target), r.kcp.pin, machines, t, n, r.w, r.trace, r.target, done, err, !r.trouble), old(r.w).now, |old(r.trace)|);
    }
  }

  /** What the lookup came to. */
  method InspectRead(r: Reconciler, machines: seq<Machine>, read: Read<EtcdMember>) returns (proceed: bool, done: bool, err: Option<Fault>)
    requires r.Valid() && AtWork(r.scope, r.kcp, r.target) && OnPin(r.w, r.kcp.pin, r.kcp.pin)
    requires r.target.requestedAt.None? && r.target.nodeRef.None? && IsLabel(r.target.hostname) && (read.ReadFailed? ==> r.trouble)
    requires read.ReadFailed? || IsRead(r.w, r.kcp.pin, LeaveNodeName(r.target), read)
    requires forall x | MemberIs(r.kcp.pin, x) in r.w.seen :: read == Found(x)
    modifies r`trace, r`w, r`worlds, r`trouble, r`target
    ensures r.Valid() && Still(old(r.w), r.w) && old(r.trace) <= r.trace && (old(r.trouble) ==> r.trouble)
    ensures proceed ==> SameLeave(old(r.target), r.target)
    ensures proceed ==> read.Found? && !read.value.notJoined && NobodyElses(read.value, old(r.target), machines)
    ensures !proceed ==> done || err.Some?
    ensures !proceed ==>
              Requesting(LeavePass(old(r.target), r.kcp.pin, machines, old(r.w).now, |old(r.trace)|, r.w, r.trace, r.target, done, err, !r.trouble))
  {
    proceed := false;
    if read.ReadFailed? {
      done, err := LeaveUnreachable(r);
    } else if read.Found? {
      proceed, done, err := InspectMember(r, machines, read.value);
    } else {
      err := LeaveAlone(r, read, None);
      done := true;
    }
  }

  // ---- once the node is late ----

  /** The hook goes at the cap; until then the pass ends as `err` says. */
  method UntilCap(r: Reconciler, waiting: Option<Fault>) returns (done: bool, err: Option<Fault>)
    requires r.Valid() && AtWork(r.scope, r.kcp, r.target) && r.target.requestedAt.Some? && r.scope.leave.late
    modifies r`trace, r`w, r`worlds, r`trouble, r`target
    ensures r.Valid() && Still(old(r.w), r.w) && old(r.trace) <= r.trace
    ensures !done ==> err == waiting && r.target == old(r.target) && !Overdue(old(r.target).delegatedAt, old(r.w).now, 600)
    ensures done ==> err == None || err == Some(WriteFailed)
    ensures done && err == None && old(r.target).hook ==>
              Dropped(r.trace, old(r.target).name) && r.trace[|r.trace| - 1].why.Capped? && Overdue(Some(r.trace[|r.trace| - 1].why.since), r.w.now, 600)
    ensures done && err.Some? ==> r.trouble
    ensures old(r.trouble) ==> r.trouble
  {
    done := Expired(r, r.target.delegatedAt, MEMBER_LEAVE_CAP);
    err := waiting;
    if done {
      CappedDrops(r.w, r.target, r.kcp, r.scope);
      err := RemoveEtcdLeaveHook(r, Capped(r.target.delegatedAt.value));
    }
  }

  /** stampAnnotationOnce, etcd-member-leave-requested-at. */
  method StampDelegatedOnce(r: Reconciler) returns (ok: bool)
    requires r.Valid() && r.scope.LeaveOf? && r.scope.leave.machine == r.target.name
    requires r.scope.leave.requested && r.scope.leave.late
    modifies r`trace, r`w, r`worlds, r`trouble, r`target
    ensures r.Valid() && Still(old(r.w), r.w) && old(r.trace) <= r.trace
    ensures SameLeave(old(r.target), r.target) && (ok ==> r.target.delegatedAt.Some?)
    ensures old(r.target).delegatedAt.Some? ==> r.target.delegatedAt == old(r.target).delegatedAt
    ensures r.trouble == (old(r.trouble) || !ok)
  {
    ok := true;
    if r.target.delegatedAt.None? {
      var at;
      ok, at := r.StampDelegate(true, None);
    }
  }

  /** Nothing could be read: the delegation's clock starts, and the hook is kept until its cap. */
  method WaitForCap(r: Reconciler) returns (done: bool, err: Option<Fault>)
    requires r.Valid() && AtWork(r.scope, r.kcp, r.target) && r.target.requestedAt.Some? && r.scope.leave.late
    modifies r`trace, r`w, r`worlds, r`trouble, r`target
    ensures r.Valid() && Still(old(r.w), r.w) && old(r.trace) <= r.trace
    ensures !done ==> err.Some?
    ensures !done && err != Some(WriteFailed) ==> r.target.delegatedAt.Some? && !Overdue(old(r.target).delegatedAt, old(r.w).now, 600)
    ensures done && err == None && old(r.target).hook ==>
              Dropped(r.trace, old(r.target).name) && r.trace[|r.trace| - 1].why.Capped? && Overdue(Some(r.trace[|r.trace| - 1].why.since), r.w.now, 600)
    ensures err.Some? && err != Some(Silent) ==> r.trouble
    ensures old(r.trouble) ==> r.trouble
  {
    var ok := StampDelegatedOnce(r);
    done, err := false, Some(WriteFailed);
    if ok {
      done, err := UntilCap(r, Some(Silent));
    }
  }

  /** The stamp of the delegation and the member's ID, each if it is not there yet. */
  method StampDelegation(r: Reconciler, id: string) returns (ok: bool)
    requires r.Valid() && AtWork(r.scope, r.kcp, r.target) && r.target.requestedAt.Some? && r.scope.leave.late
    requires r.target.memberID.GetOr(id) == id
    modifies r`trace, r`w, r`worlds, r`trouble, r`target
    ensures r.Valid() && Still(old(r.w), r.w) && old(r.trace) <= r.trace
    ensures SameLeave(old(r.target), r.target) && (old(r.target).delegatedAt.Some? ==> r.target.delegatedAt == old(r.target).delegatedAt)
    ensures ok ==> r.target.memberID == Some(id) && r.target.delegatedAt.Some?
    ensures r.trouble == (old(r.trouble) || !ok)
  {
    ok := true;
    if r.target.delegatedAt.None? || r.target.memberID.None? {
      var at;
      ok, at := r.StampDelegate(r.target.delegatedAt.None?, if r.target.memberID.Some? then None else Some(id));
    }
  }

  /** spec.leave, if it is not set yet. */
  method SetLeaveOnce(r: Reconciler, client: Client, member: EtcdMember) returns (ok: bool)
    requires r.Valid() && AtWork(r.scope, r.kcp, r.target) && r.target.requestedAt.Some? && r.scope.leave.late
    requires OnPin(r.w, r.kcp.pin, client.cluster) && MemberIs(r.kcp.pin, member) in r.w.seen
    requires member.name == LeaveNodeName(r.target) && member.id.Some? && r.target.memberID == member.id
    modifies r`trace, r`w, r`worlds, r`trouble
    ensures r.Valid() && Still(old(r.w), r.w) && old(r.trace) <= r.trace
    ensures member.leave ==> ok && r.trace == old(r.trace)
    ensures !member.leave && ok ==>
              r.trace != [] && r.trace[|r.trace| - 1] == SetLeave(r.kcp.pin, member.name, true, ForMachine(r.target.name)) &&
              |old(r.trace)| < |r.trace|
    ensures r.trouble == (old(r.trouble) || !ok)
  {
    ok := true;
    if !member.leave {
      LeaveCanBeAsked(r.w, r.target, r.kcp, r.scope, client.cluster, member);
      var res := r.PatchLeave(client, member, true, ForMachine(r.target.name));
      ok := res == Patched;
    }
  }

  /** Joined=False ends the leave, once spec.leave was set; otherwise the cap does. */
  method FollowRemoval(r: Reconciler, member: EtcdMember, asked: bool) returns (done: bool, err: Option<Fault>)
    requires r.Valid() && AtWork(r.scope, r.kcp, r.target) && r.target.requestedAt.Some? && r.scope.leave.late
    requires OnPin(r.w, r.kcp.pin, r.kcp.pin) && member.name == LeaveNodeName(r.target) && MemberIs(r.kcp.pin, member) in r.w.seen
    modifies r`trace, r`w, r`worlds, r`trouble, r`target
    ensures r.Valid() && Still(old(r.w), r.w) && old(r.trace) <= r.trace
    ensures !done ==> err == (if asked then None else Some(WriteFailed)) && !(asked && member.notJoined) && r.target == old(r.target) &&
                      !Overdue(old(r.target).delegatedAt, old(r.w).now, 600)
    ensures done ==> err == None || err == Some(WriteFailed)
    ensures done && err == None && old(r.target).hook ==>
              && Dropped(r.trace, old(r.target).name)
              && if asked && member.notJoined then r.trace[|r.trace| - 1].why.NotJoined?
                 else r.trace[|r.trace| - 1].why.Capped? && Overdue(Some(r.trace[|r.trace| - 1].why.since), r.w.now, 600)
    ensures done && err.Some? ==> r.trouble
    ensures old(r.trouble) ==> r.trouble
  {
    if asked && member.notJoined {
      NotJoinedDrops(r.w, r.target, r.kcp, r.scope, member);
      err := RemoveEtcdLeaveHook(r, NotJoined(r.kcp.pin, member));
      done := true;
    } else {
      done, err := UntilCap(r, if asked then None else Some(WriteFailed));
    }
  }

  /** k0s is asked to remove the member the Machine's leave is recorded for: spec.leave is set on
      exactly the object inspected, and the hook goes once k0s reports Joined=False, or at the
      cap. */
  method AskK0s(r: Reconciler, client: Client, member: EtcdMember, id: string) returns (done: bool, err: Option<Fault>)
    requires r.Valid() && AtWork(r.scope, r.kcp, r.target) && r.target.requestedAt.Some? && r.scope.leave.late
    requires OnPin(r.w, r.kcp.pin, client.cluster) && MemberIs(r.kcp.pin, member) in r.w.seen
    requires member.name == LeaveNodeName(r.target) && member.id == Some(id) && r.target.memberID.GetOr(id) == id
    modifies r`trace, r`w, r`worlds, r`trouble, r`target
    ensures r.Valid() && Still(old(r.w), r.w) && old(r.trace) <= r.trace
    ensures !r.trouble || (!done && err == None) ==>
              member.leave ||
              exists i | |old(r.trace)| <= i < |r.trace| :: r.trace[i] == SetLeave(r.kcp.pin, member.name, true, ForMachine(old(r.target).name))
    ensures done && err == None && old(r.target).hook ==>
              && Dropped(r.trace, old(r.target).name)
              && if member.notJoined && r.trace[|r.trace| - 1].why.NotJoined? then true
                 else r.trace[|r.trace| - 1].why.Capped? && Overdue(Some(r.trace[|r.trace| - 1].why.since), r.w.now, 600)
    ensures !done && err == None ==>
              && r.target.memberID == Some(id) && r.target.delegatedAt.Some? && !member.notJoined
              && !Overdue(old(r.target).delegatedAt, old(r.w).now, 600)
    ensures err == None || err == Some(WriteFailed)
    ensures err.Some? ==> r.trouble
    ensures old(r.trouble) ==> r.trouble
  {
    var ok := StampDelegation(r, id);
    if !ok {
      return false, Some(WriteFailed);
    }
    ok := SetLeaveOnce(r, client, member);
    ghost var n := |r.trace|;
    done, err := FollowRemoval(r, member, ok);
    assert n > 0 ==> r.trace[n - 1] == r.trace[..n][n - 1];
  }

  /** delegateMemberLeave: the node is late. A member that is another Machine's, or not the one
      first inspected, is left alone; k0s is asked for any other. */
  method DelegateMemberLeave(r: Reconciler, machines: seq<Machine>, conn: Conn) returns (done: bool, err: Option<Fault>)
    requires r.Valid() && AtWork(r.scope, r.kcp, r.target) && r.target.requestedAt.Some? && r.scope.leave.late
    requires conn != Foreign && Trusted(r.w, r.kcp, conn) && NoneRead(r.w)
    modifies r`trace, r`w, r`worlds, r`trouble, r`target
    ensures r.Valid() && Quiet(old(r.w), r.w) && old(r.trace) <= r.trace && (old(r.trouble) ==> r.trouble)
    ensures Delegating(
              LeavePass(old(r.target), r.kcp.pin, machines, old(r.w).now, |old(r.trace)|, r.w, r.trace, r.target, done, err, !r.trouble),
              conn.Connected?)
  {
    var read := ReadFailed;
    if conn.Connected? {
      read := r.GetMember(conn.client, LeaveNodeName(r.target));
    }
    ghost var n, t := |r.trace|, r.w.now;
    if read.ReadFailed? {
      done, err := WaitForCap(r);
    } else {
      done, err := DelegateRead(r, machines, conn.client, read);
      SoonerDelegating(
        LeavePass(old(r.target), r.kcp.pin, machines, t, n, r.w, r.trace, r.target, done, err, !r.trouble), old(r.w).now, |old(r.trace)|, conn.Connected?);
    }
  }

  /** The member x, the Machine's own and the only one read, was asked for. */
  lemma AskingDelegates(o: LeavePass, x: EtcdMember)
    requires MemberIs(o.pin, x) in o.w.seen && forall y | MemberIs(o.pin, y) in o.w.seen :: y == x
    requires x.name == Called(o.m) && x.id.Some? && (o.m.memberID.None? || o.m.memberID == x.id) && Unclaimed(x, o.m, o.machines)
    requires o.calm || (!o.done && o.err == None) ==> x.leave || AskedFor(o, x.name)
    requires Let(o) ==> Dropped(o.trace, o.m.name) && ((Why(o).NotJoined? && x.notJoined) || (Why(o).Capped? && Overdue(Some(Why(o).since), o.w.now, 600)))
    requires !o.done && o.err == None ==> o.target.memberID == x.id && o.target.delegatedAt.Some? && !x.notJoined && !Overdue(o.m.delegatedAt, o.began, 600)
    requires (o.err == None || o.err == Some(WriteFailed)) && (o.err.Some? ==> !o.calm)
    ensures Delegating(o, true)
  {
  }

  /** The member, if there is one, was left alone. */
  lemma LeavingDelegates(o: LeavePass, read: Read<EtcdMember>)
    requires IsRead(o.w, o.pin, Called(o.m), read) && forall x | MemberIs(o.pin, x) in o.w.seen :: read == Found(x)
    requires read.Found? ==>
               !(read.value.id.Some? && (o.m.memberID.None? || o.m.memberID == read.value.id) && Unclaimed(read.value, o.m, o.machines))
    requires o.done && (o.err.Some? ==> !o.calm)
    requires Let(o) ==> Dropped(o.trace, o.m.name) && if read.NotFound? then Why(o).NoSuchMember? else Why(o).CannotTell?
    ensures Delegating(o, true)
  {
  }

  /** Whether the member read is surely the Machine's, or whose address it has instead. */
  method IsOwn(read: Read<EtcdMember>, machines: seq<Machine>, target: Machine) returns (own: bool, owner: Option<Machine>)
    ensures own <==> read.Found? && read.value.id.Some? && (target.memberID.None? || target.memberID == read.value.id) &&
                     Unclaimed(read.value, target, machines)
    ensures !own && read.Found? ==> Doubtful(read.value, target, owner)
  {
    own, owner := false, None;
    if read.Found? {
      owner := EtcdMemberPeerOwner(read.value, machines, target);
      own := owner.None? && read.value.id.Some? && target.memberID.GetOr(read.value.id.value) == read.value.id.value;
    }
  }

  /** An answer about the member's object was read. */
  method DelegateRead(r: Reconciler, machines: seq<Machine>, client: Client, read: Read<EtcdMember>)
    returns (done: bool, err: Option<Fault>)
    requires r.Valid() && AtWork(r.scope, r.kcp, r.target) && r.target.requestedAt.Some? && r.scope.leave.late
    requires OnPin(r.w, r.kcp.pin, client.cluster) && IsRead(r.w, client.cluster, LeaveNodeName(r.target), read)
    requires forall x | MemberIs(r.kcp.pin, x) in r.w.seen :: read == Found(x)
    modifies r`trace, r`w, r`worlds, r`trouble, r`target
    ensures r.Valid() && Still(old(r.w), r.w) && old(r.trace) <= r.trace && (old(r.trouble) ==> r.trouble)
    ensures Delegating(
              LeavePass(old(r.target), r.kcp.pin, machines, old(r.w).now, |old(r.trace)|, r.w, r.trace, r.target, done, err, !r.trouble), true)
  {
    var own, owner := IsOwn(read, machines, r.target);
    if own {
      done, err := AskK0s(r, client, read.value, read.value.id.value);
      AskingDelegates(LeavePass(old(r.target), r.kcp.pin, machines, old(r.w).now, |old(r.trace)|, r.w, r.trace, r.target, done, err, !r.trouble), read.value);
    } else {
      err := LeaveAlone(r, read, owner);
      done := true;
      LeavingDelegates(LeavePass(old(r.target), r.kcp.pin, machines, old(r.w).now, |old(r.trace)|, r.w, r.trace, r.target, done, err, !r.trouble), read);
    }
  }

  // ---- the pass ----

  /** The request stands in the pinned cluster, under the Machine's node name, and is stamped. */
  ghost predicate Requested(w: World, pin: string, m: Machine, target: Machine) {
    && m.name in w.forced && w.forced[m.name].cluster == pin && w.forced[m.name].node == Called(m)
    && target.requestedAt.Some?
  }

  /** The sentinel is forced before the stamp, so a pass that stops between the two forces it
      again. */
  method ForceAndStamp(r: Reconciler, client: Client) returns (ok: bool)
    requires r.Valid() && AtWork(r.scope, r.kcp, r.target) && r.target.requestedAt.None?
    requires OnPin(r.w, r.kcp.pin, client.cluster) && (r.target.nodeRef.Some? || IsLabel(r.target.hostname))
    modifies r`trace, r`w, r`worlds, r`trouble, r`target
    ensures r.Valid() && Later(old(r.w), r.w) && old(r.trace) <= r.trace
    ensures ok ==> Requested(r.w, r.kcp.pin, old(r.target), r.target)
    ensures ok ==> exists i | |old(r.trace)| <= i < |r.trace| ::
              r.trace[i] == ForceRequest(r.kcp.pin, LeaveNodeName(old(r.target)), old(r.target).name)
    ensures r.trouble == (old(r.trouble) || !ok)
  {
    ok := r.ForceRequest(client, LeaveNodeName(r.target));
    ghost var n := |r.trace|;
    if ok {
      ok := r.StampRequest();
      assert r.trace[n - 1] == r.trace[..n][n - 1];
    }
  }

  /** The first request of an eviction. */
  method RequestLeave(r: Reconciler, machines: seq<Machine>, conn: Conn) returns (done: bool, err: Option<Fault>)
    requires r.Valid() && AtWork(r.scope, r.kcp, r.target) && r.target.requestedAt.None?
    requires conn != Foreign && Trusted(r.w, r.kcp, conn) && NoneRead(r.w) && (conn == NoConn ==> r.trouble || r.kcp.pin == "")
    modifies r`trace, r`w, r`worlds, r`trouble, r`target
    ensures r.Valid() && Later(old(r.w), r.w) && old(r.trace) <= r.trace && (old(r.trouble) ==> r.trouble)
    ensures Requesting(LeavePass(old(r.target), r.kcp.pin, machines, old(r.w).now, |old(r.trace)|, r.w, r.trace, r.target, done, err, !r.trouble))
    ensures !done && err == None ==> Requested(r.w, r.kcp.pin, old(r.target), r.target)
  {
    if conn == NoConn {
      done, err := LeaveUnreachable(r);
    } else if r.target.nodeRef.None? {
      done, err := RequestUnregistered(r, machines, conn.client);
    } else {
      var ok := ForceAndStamp(r, conn.client);
      done, err := false, if ok then None else Some(WriteFailed);
    }
  }

  /** The member that was inspected. */
  lemma Inspected(trace: seq<Event>, from: nat, pin: string, m: Machine, machines: seq<Machine>) returns (x: EtcdMember)
    requires exists i, x | from <= i < |trace| && trace[i] == Saw(MemberIs(pin, x)) ::
               x.name == ToLower(m.hostname) && !x.notJoined && NobodyElses(x, m, machines)
    ensures x.name == ToLower(m.hostname) && !x.notJoined && NobodyElses(x, m, machines)
    ensures exists i | from <= i < |trace| :: trace[i] == Saw(MemberIs(pin, x))
  {
    var i, y :| from <= i < |trace| && trace[i] == Saw(MemberIs(pin, y)) &&
                y.name == ToLower(m.hostname) && !y.notJoined && NobodyElses(y, m, machines);
    x := y;
  }

  /** A leave is asked for on the strength of it. */
  lemma Proceeded(o: LeavePass, was: seq<Event>, x: EtcdMember)
    requires o.m.nodeRef.None? && IsLabel(o.m.hostname) && !o.done && (o.err == None || (o.err == Some(WriteFailed) && !o.calm))
    requires x.name == ToLower(o.m.hostname) && !x.notJoined && NobodyElses(x, o.m, o.machines)
    requires was <= o.trace && exists i | o.from <= i < |was| :: was[i] == Saw(MemberIs(o.pin, x))
    ensures Requesting(o)
  {
    var i :| o.from <= i < |was| && was[i] == Saw(MemberIs(o.pin, x));
    assert o.trace[i] == was[i];
    assert LookedUp(o, x);
  }

  /** Of a Machine without a Node. */
  method RequestUnregistered(r: Reconciler, machines: seq<Machine>, client: Client) returns (done: bool, err: Option<Fault>)
    requires r.Valid() && AtWork(r.scope, r.kcp, r.target) && OnPin(r.w, r.kcp.pin, client.cluster) && NoneRead(r.w)
    requires r.target.requestedAt.None? && r.target.nodeRef.None?
    modifies r`trace, r`w, r`worlds, r`trouble, r`target
    ensures r.Valid() && Later(old(r.w), r.w) && old(r.trace) <= r.trace && (old(r.trouble) ==> r.trouble)
    ensures Requesting(LeavePass(old(r.target), r.kcp.pin, machines, old(r.w).now, |old(r.trace)|, r.w, r.trace, r.target, done, err, !r.trouble))
    ensures !done && err == None ==> Requested(r.w, r.kcp.pin, old(r.target), r.target)
  {
    var proceed;
    proceed, done, err := InspectUnregisteredLeave(r, machines, client);
    if proceed {
      ghost var x := Inspected(r.trace, |old(r.trace)|, r.kcp.pin, old(r.target), machines);
      ghost var was := r.trace;
      var ok := ForceAndStamp(r, client);
      done, err := false, if ok then None else Some(WriteFailed);
      Proceeded(
        LeavePass(old(r.target), r.kcp.pin, machines, old(r.w).now, |old(r.trace)|, r.w, r.trace, r.target, done, err, !r.trouble), was, x);
    }
  }

  /** After the first request: an ack, or a registered node's silence in the reports, is the end;
      a late node's leave is handed to k0s; otherwise the request is kept up. */
  method AwaitLeave(r: Reconciler, machines: seq<Machine>, conn: Conn) returns (done: bool, err: Option<Fault>)
    requires r.Valid() && AtWork(r.scope, r.kcp, r.target) && r.target.requestedAt.Some? && !r.scope.leave.late
    requires conn != Foreign && Trusted(r.w, r.kcp, conn) && WithLeaves(r.w, conn) && NoneRead(r.w)
    modifies r`trace, r`w, r`worlds, r`trouble, r`scope, r`target
    ensures r.Valid() && r.scope.LeaveOf? && r.scope == LeaveOf(old(r.scope).leave.(late := r.scope.leave.late))
    ensures Quiet(old(r.w), r.w) && old(r.trace) <= r.trace && (old(r.trouble) ==> r.trouble)
    ensures Awaiting(LeavePass(old(r.target), r.kcp.pin, machines, old(r.w).now, |old(r.trace)|, r.w, r.trace, r.target, done, err, !r.trouble),
              conn, r.scope.leave.late)
  {
    var node := LeaveNodeName(r.target);
    if Acked(conn, node) {
      AckDrops(r.w, r.target, r.kcp, r.scope, conn.client.cluster, conn.leaves);
      err := RemoveEtcdLeaveHook(r, OnAck(conn.client.cluster, node, conn.leaves[node]));
      done := true;
    } else {
      done, err := AwaitReport(r, machines, conn);
    }
  }

  /** The reports, which are read of a registered Machine only. */
  method ReadReports(r: Reconciler, conn: Conn) returns (status: Option<Reports>)
    requires r.Valid()
    modifies r`trace, r`w, r`worlds, r`trouble
    ensures r.Valid() && Still(old(r.w), r.w) && old(r.trace) <= r.trace && (old(r.trouble) ==> r.trouble)
    ensures status.Some? ==> conn.Connected? && r.target.nodeRef.Some? && ReportsAre(status.value) in r.w.seen
    ensures conn.Connected? && r.target.nodeRef.Some? && status.None? ==> r.trouble
  {
    status := None;
    if conn.Connected? && r.target.nodeRef.Some? {
      status := r.ReadStatus();
    }
  }

  /** There is no ack. */
  method AwaitReport(r: Reconciler, machines: seq<Machine>, conn: Conn) returns (done: bool, err: Option<Fault>)
    requires r.Valid() && AtWork(r.scope, r.kcp, r.target) && r.target.requestedAt.Some? && !r.scope.leave.late
    requires conn != Foreign && Trusted(r.w, r.kcp, conn) && NoneRead(r.w) && !Acked(conn, LeaveNodeName(r.target))
    modifies r`trace, r`w, r`worlds, r`trouble, r`scope, r`target
    ensures r.Valid() && r.scope.LeaveOf? && r.scope == LeaveOf(old(r.scope).leave.(late := r.scope.leave.late))
    ensures Quiet(old(r.w), r.w) && old(r.trace) <= r.trace && (old(r.trouble) ==> r.trouble)
    ensures Awaiting(LeavePass(old(r.target), r.kcp.pin, machines, old(r.w).now, |old(r.trace)|, r.w, r.trace, r.target, done, err, !r.trouble),
              conn, r.scope.leave.late)
  {
    var status := ReadReports(r, conn);
    ghost var n, t := |r.trace|, r.w.now;
    if status.Some? && LeaveNodeName(r.target) !in status.value {
      err := DropSilent(r, conn, status.value);
      done := true;
      SilenceEnds(LeavePass(old(r.target), r.kcp.pin, machines, t, n, r.w, r.trace, r.target, done, err, !r.trouble), conn, status.value);
    } else {
      done, err := AwaitAck(r, machines, conn, status);
    }
    SoonerAwaiting(
      LeavePass(old(r.target), r.kcp.pin, machines, t, n, r.w, r.trace, r.target, done, err, !r.trouble), old(r.w).now, |old(r.trace)|,
      conn, r.scope.leave.late);
  }

  lemma SilenceEnds(o: LeavePass, conn: Conn, reports: Reports)
    requires conn.Connected? && !Acked(conn, Called(o.m)) && o.m.nodeRef.Some?
    requires ReportsAre(reports) in o.w.seen && Called(o.m) !in reports
    requires o.done && (o.err.Some? ==> !o.calm) && (Let(o) ==> Dropped(o.trace, o.m.name) && Why(o).NotReported?)
    ensures Awaiting(o, conn, false)
  {
  }

  method DropSilent(r: Reconciler, conn: Conn, reports: Reports) returns (err: Option<Fault>)
    requires r.Valid() && AtWork(r.scope, r.kcp, r.target) && r.target.requestedAt.Some? && r.target.nodeRef.Some?
    requires conn.Connected? && Trusted(r.w, r.kcp, conn) && ReportsAre(reports) in r.w.seen && LeaveNodeName(r.target) !in reports
    modifies r`trace, r`w, r`worlds, r`trouble, r`target
    ensures r.Valid() && Still(old(r.w), r.w) && old(r.trace) <= r.trace && (old(r.trouble) ==> r.trouble)
    ensures (err == None || err == Some(WriteFailed)) && (err.Some? ==> r.trouble)
    ensures err == None && old(r.target).hook ==> Dropped(r.trace, old(r.target).name) && r.trace[|r.trace| - 1].why.NotReported?
  {
    SilenceDrops(r.w, r.target, r.kcp, r.scope, conn.client.cluster, reports);
    err := RemoveEtcdLeaveHook(r, NotReported(conn.client.cluster, LeaveNodeName(r.target)));
  }

  /** The node is late: what the delegation comes to. */
  lemma LateGoesOn(o: LeavePass, conn: Conn, status: Option<Reports>)
    requires Delegating(o, conn.Connected?) && conn != Foreign && !Acked(conn, Called(o.m)) && Overdue(o.m.requestedAt, o.w.now, 300)
    requires conn.Connected? && o.m.nodeRef.Some? ==>
               if status.None? then !o.calm else ReportsAre(status.value) in o.w.seen && Called(o.m) in status.value
    ensures Awaiting(o, conn, true)
  {
  }

  /** The node has had its time. */
  method HandOver(r: Reconciler, machines: seq<Machine>, conn: Conn, ghost status: Option<Reports>) returns (done: bool, err: Option<Fault>)
    requires r.Valid() && AtWork(r.scope, r.kcp, r.target) && Overdue(r.target.requestedAt, r.w.now, 300)
    requires conn != Foreign && Trusted(r.w, r.kcp, conn) && NoneRead(r.w) && !Acked(conn, LeaveNodeName(r.target))
    requires conn.Connected? && r.target.nodeRef.Some? ==>
               if status.None? then r.trouble else ReportsAre(status.value) in r.w.seen && LeaveNodeName(r.target) in status.value
    modifies r`trace, r`w, r`worlds, r`trouble, r`scope, r`target
    ensures r.Valid() && r.scope == LeaveOf(old(r.scope).leave.(late := true))
    ensures Quiet(old(r.w), r.w) && old(r.trace) <= r.trace && (old(r.trouble) ==> r.trouble)
    ensures Awaiting(LeavePass(old(r.target), r.kcp.pin, machines, old(r.w).now, |old(r.trace)|, r.w, r.trace, r.target, done, err, !r.trouble), conn, true)
  {
    r.Widen();
    done, err := DelegateMemberLeave(r, machines, conn);
    LateGoesOn(
      LeavePass(old(r.target), r.kcp.pin, machines, old(r.w).now, |old(r.trace)|, r.w, r.trace, r.target, done, err, !r.trouble), conn, status);
  }

  /** No ack yet, and no silence. */
  method AwaitAck(r: Reconciler, machines: seq<Machine>, conn: Conn, ghost status: Option<Reports>) returns (done: bool, err: Option<Fault>)
    requires r.Valid() && AtWork(r.scope, r.kcp, r.target) && r.target.requestedAt.Some? && !r.scope.leave.late
    requires conn != Foreign && Trusted(r.w, r.kcp, conn) && NoneRead(r.w) && !Acked(conn, LeaveNodeName(r.target))
    requires conn.Connected? && r.target.nodeRef.Some? ==>
               if status.None? then r.trouble else ReportsAre(status.value) in r.w.seen && LeaveNodeName(r.target) in status.value
    modifies r`trace, r`w, r`worlds, r`trouble, r`scope, r`target
    ensures r.Valid() && r.scope.LeaveOf? && r.scope == LeaveOf(old(r.scope).leave.(late := r.scope.leave.late))
    ensures Quiet(old(r.w), r.w) && old(r.trace) <= r.trace && (old(r.trouble) ==> r.trouble)
    ensures Awaiting(LeavePass(old(r.target), r.kcp.pin, machines, old(r.w).now, |old(r.trace)|, r.w, r.trace, r.target, done, err, !r.trouble),
              conn, r.scope.leave.late)
  {
    var late := Expired(r, r.target.requestedAt, MEMBER_LEAVE_TIMEOUT);
    if late {
      ghost var n, t := |r.trace|, r.w.now;
      done, err := HandOver(r, machines, conn, status);
      SoonerAwaiting(
        LeavePass(old(r.target), r.kcp.pin, machines, t, n, r.w, r.trace, r.target, done, err, !r.trouble), old(r.w).now, |old(r.trace)|,
        conn, true);
    } else {
      err := KeepUp(r, conn);
      done := false;
    }
  }

  /** The request is kept up, and an ack with it. */
  method KeepUp(r: Reconciler, conn: Conn) returns (err: Option<Fault>)
    requires r.Valid() && AtWork(r.scope, r.kcp, r.target) && r.target.requestedAt.Some?
    requires conn != Foreign && Trusted(r.w, r.kcp, conn)
    modifies r`trace, r`w, r`worlds, r`trouble
    ensures r.Valid() && Still(old(r.w), r.w) && old(r.trace) <= r.trace
    ensures err == None ==> Asked(r.w, r.kcp.pin, LeaveNodeName(r.target))
    ensures err.Some? ==> r.trouble || conn == NoConn
    ensures old(r.trouble) ==> r.trouble
  {
    if conn == NoConn {
      return Some(Silent);
    }
    var ok := r.KeepRequest(conn.client, LeaveNodeName(r.target));
    err := if ok then None else Some(WriteFailed);
  }

  /** The connection is to the pinned cluster, and shows its leave ConfigMap; there is one unless some
      call failed. */
  ghost predicate Reached(o: LeavePass, conn: Conn) {
    && (conn.Connected? ==> conn.client.cluster == o.pin != "" && Answered(o.pin) in o.w.seen && LeavesAre(o.pin, conn.leaves) in o.w.seen)
    && (o.calm && o.pin != "" ==> conn.Connected?)
  }

  /** What a whole pass comes to. Frozen, it does nothing. The hook of a Machine that runs no k0s goes.
      Before CAPI is done with the Node, nothing is asked for. Then the leave is asked for, awaited,
      handed over and the hook released as Requesting and Awaiting say. */
  ghost predicate Handled(o: LeavePass, k: Kcp, conn: Conn, late: bool) {
    var m := o.m;
    && (Let(o) ==> Dropped(o.trace, m.name))
    && (k.mismatch.Some? ==> !o.done && o.err == Some(IdentityChanged) && |o.trace| == o.from)
    && (k.mismatch.None? && !k.k0s ==> o.done && (o.calm ==> o.err == None) && (Let(o) ==> Why(o).NotK0s?))
    && (k.mismatch.None? && k.k0s && m.requestedAt.None? && !m.atPreTerminate ==> !o.done && o.err == None && |o.trace| == o.from)
    && (k.mismatch.None? && k.k0s && m.requestedAt.None? && m.atPreTerminate ==>
          Requesting(o) && (!o.done && o.err == None ==> Requested(o.w, k.pin, m, o.target)))
    && (k.mismatch.None? && k.k0s && m.requestedAt.Some? ==> Reached(o, conn) && Awaiting(o, conn, late))
  }

  /** reconcileMemberLeave. Whatever the pass writes is in its scope, that of this Machine's
      leave in the pinned cluster, and rests on what that cluster showed in this very pass; frozen,
      it writes nothing; before CAPI is done with the Node, it asks for nothing; and then it asks,
      waits, hands over and releases as Requesting and Awaiting say. */
  method ReconcileMemberLeave(r: Reconciler, machines: seq<Machine>, vias: seq<string>)
    returns (done: bool, err: Option<Fault>, ghost conn: Conn)
    requires r.Valid()
    modifies r`trace, r`w, r`worlds, r`trouble, r`tried, r`base, r`began, r`scope, r`kcp, r`target, r`identityCheckedAt
    ensures r.Valid() && r.base == old(r.trace) && r.began == old(r.w) && SameButMismatch(old(r.kcp), r.kcp)
    ensures r.scope.LeaveOf? && r.scope.leave == CaseOf(old(r.target), old(r.kcp), r.scope.leave.late)
    ensures old(r.tried) <= r.tried && old(r.trace) + [NewPass] <= r.trace && Later(Apply(old(r.w), NewPass), r.w) && (old(r.trouble) ==> r.trouble)
    ensures var m, k := old(r.target), old(r.kcp);
            conn == NoConn && k.mismatch.None? && k.k0s && k.pin != "" && (m.requestedAt.Some? || m.atPreTerminate) ==>
              r.tried == old(r.tried) + vias + [ENDPOINT]
    ensures var m, k := old(r.target), old(r.kcp);
            var o := LeavePass(m, k.pin, machines, old(r.w).now, |old(r.trace)| + 1, r.w, r.trace, r.target, done, err, !r.trouble && r.kcp.mismatch.None?);
            Handled(o, k, conn, r.scope.leave.late)
    ensures done && err == None && old(r.target).hook ==> r.kcp.mismatch.None?
    ensures old(r.kcp).mismatch.Some? ==> r.kcp == old(r.kcp)
    ensures FoundedPass(r.Story())
  {
    r.Begin(LeaveOf(CaseOf(r.target, r.kcp, false)));
    done, err, conn := LeaveStep(r, machines, vias);
    ThisPass(r.Story());
  }

  lemma TalkedIsHandled(o: LeavePass, k: Kcp, conn: Conn, late: bool)
    requires k.mismatch.None? && k.k0s && (o.m.requestedAt.Some? || o.m.atPreTerminate) && Talked(o, conn, late) && o.pin == k.pin
    ensures Handled(o, k, conn, late)
  {
  }

  method LeaveStep(r: Reconciler, machines: seq<Machine>, vias: seq<string>) returns (done: bool, err: Option<Fault>, ghost conn: Conn)
    requires r.Valid() && r.scope == LeaveOf(CaseOf(r.target, r.kcp, false)) && NoneRead(r.w)
    modifies r`trace, r`w, r`worlds, r`trouble, r`tried, r`scope, r`kcp, r`target, r`identityCheckedAt
    ensures r.Valid() && SameButMismatch(old(r.kcp), r.kcp)
    ensures r.scope.LeaveOf? && r.scope.leave == CaseOf(old(r.target), old(r.kcp), r.scope.leave.late)
    ensures old(r.tried) <= r.tried && old(r.trace) <= r.trace && Later(old(r.w), r.w) && (old(r.trouble) ==> r.trouble)
    ensures var m, k := old(r.target), old(r.kcp);
            conn == NoConn && k.mismatch.None? && k.k0s && k.pin != "" && (m.requestedAt.Some? || m.atPreTerminate) ==>
              r.tried == old(r.tried) + vias + [ENDPOINT]
    ensures var m, k := old(r.target), old(r.kcp);
            var o := LeavePass(m, k.pin, machines, old(r.w).now, |old(r.trace)|, r.w, r.trace, r.target, done, err, !r.trouble && r.kcp.mismatch.None?);
            Handled(o, k, conn, r.scope.leave.late)
    ensures done && err == None && old(r.target).hook ==> r.kcp.mismatch.None?
    ensures old(r.kcp).mismatch.Some? ==> r.kcp == old(r.kcp)
  {
    done, err, conn := false, None, NoConn;
    if Frozen(r.kcp) {
      err := Some(IdentityChanged);
    } else if !r.kcp.k0s {
      err := RemoveEtcdLeaveHook(r, NotK0s);
      done := true;
    } else if r.target.requestedAt.Some? || r.target.atPreTerminate {
      done, err, conn := ProgressLeave(r, machines, vias);
      TalkedIsHandled(
        LeavePass(old(r.target), old(r.kcp).pin, machines, old(r.w).now, |old(r.trace)|, r.w, r.trace, r.target, done, err,
          !r.trouble && r.kcp.mismatch.None?),
        old(r.kcp), conn, r.scope.leave.late);
    }
  }

  /** As far as the leave is, the pass does what it should. */
  ghost predicate AsFar(o: LeavePass, conn: Conn, late: bool) {
    if o.m.requestedAt.None? then Requesting(o) else Awaiting(o, conn, late)
  }

  lemma SoonerAsFar(o: LeavePass, began: nat, from: nat, conn: Conn, late: bool)
    requires began <= o.began && from <= o.from && AsFar(o, conn, late)
    ensures AsFar(o.(began := began, from := from), conn, late)
  {
    if o.m.requestedAt.None? {
      SoonerRequesting(o, began, from);
    } else {
      SoonerAwaiting(o, began, from, conn, late);
    }
  }

  /** The pass talked to the workload cluster, or tried to. */
  ghost predicate Talked(o: LeavePass, conn: Conn, late: bool) {
    && AsFar(o, conn, late)
    && if o.m.requestedAt.None? then !o.done && o.err == None ==> Requested(o.w, o.pin, o.m, o.target) else Reached(o, conn)
  }

  lemma SoonerTalked(o: LeavePass, began: nat, from: nat, conn: Conn, late: bool)
    requires began <= o.began && from <= o.from && Talked(o, conn, late)
    ensures Talked(o.(began := began, from := from), conn, late)
  {
    SoonerAsFar(o, began, from, conn, late);
  }

  lemma ForeignEnds(o: LeavePass)
    requires !o.done && o.err == Some(IdentityChanged) && !o.calm
    ensures Talked(o, Foreign, false)
  {
  }

  /** What comes of a connection, or of none, in a pass that began then. Another cluster's answer ends
      it. */
  method GoOnLeaving(r: Reconciler, machines: seq<Machine>, conn: Conn, ghost began: nat, ghost from: nat)
    returns (done: bool, err: Option<Fault>)
    requires began <= r.w.now && from <= |r.trace|
    requires r.Valid() && r.scope.LeaveOf? && !r.scope.leave.late && NoneRead(r.w) && Trusted(r.w, r.kcp, conn) && WithLeaves(r.w, conn)
    requires if conn == Foreign then r.trouble || Frozen(r.kcp) else AtWork(r.scope, r.kcp, r.target)
    requires conn == NoConn ==> r.trouble || r.kcp.pin == ""
    modifies r`trace, r`w, r`worlds, r`trouble, r`scope, r`target
    ensures r.Valid() && r.scope.LeaveOf? && r.scope == LeaveOf(old(r.scope).leave.(late := r.scope.leave.late))
    ensures Later(old(r.w), r.w) && old(r.trace) <= r.trace && (old(r.trouble) ==> r.trouble) && (done ==> r.kcp.mismatch.None?)
    ensures Talked(LeavePass(old(r.target), r.kcp.pin, machines, began, from, r.w, r.trace, r.target, done, err,
                     !r.trouble && r.kcp.mismatch.None?),
              conn, r.scope.leave.late)
  {
    ghost var n, t := |r.trace|, r.w.now;
    if conn == Foreign {
      done, err := false, Some(IdentityChanged);
      ForeignEnds(LeavePass(old(r.target), r.kcp.pin, machines, t, n, r.w, r.trace, r.target, done, err, false));
    } else if r.target.requestedAt.None? {
      done, err := RequestLeave(r, machines, conn);
    } else {
      done, err := AwaitLeave(r, machines, conn);
    }
    SoonerTalked(
      LeavePass(old(r.target), r.kcp.pin, machines, t, n, r.w, r.trace, r.target, done, err, !r.trouble && r.kcp.mismatch.None?),
      began, from, conn, r.scope.leave.late);
  }

  /** The part of the pass that talks to the workload cluster. */
  method ProgressLeave(r: Reconciler, machines: seq<Machine>, vias: seq<string>) returns (done: bool, err: Option<Fault>, ghost conn: Conn)
    requires r.Valid() && AtWork(r.scope, r.kcp, r.target) && !r.scope.leave.late && NoneRead(r.w)
    modifies r`trace, r`w, r`worlds, r`trouble, r`tried, r`scope, r`kcp, r`target, r`identityCheckedAt
    ensures r.Valid() && SameButMismatch(old(r.kcp), r.kcp)
    ensures r.scope.LeaveOf? && r.scope == LeaveOf(old(r.scope).leave.(late := r.scope.leave.late))
    ensures old(r.tried) <= r.tried && old(r.trace) <= r.trace && Later(old(r.w), r.w) && (old(r.trouble) ==> r.trouble)
    ensures conn == NoConn && old(r.kcp).pin != "" ==> r.tried == old(r.tried) + vias + [ENDPOINT]
    ensures done ==> r.kcp.mismatch.None?
    ensures Talked(
              LeavePass(old(r.target), old(r.kcp).pin, machines, old(r.w).now, |old(r.trace)|, r.w, r.trace, r.target, done, err,
                !r.trouble && r.kcp.mismatch.None?),
              conn, r.scope.leave.late)
  {
    var c := Connect(r, vias, true);
    conn := c;
    done, err := GoOnLeaving(r, machines, c, old(r.w).now, |old(r.trace)|);
  }
}
