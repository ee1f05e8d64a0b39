/**
 The world the HA etcd-membership protocol runs in, as a state machine over single writes.

 A world holds the KairosControlPlane object, the control-plane Machines, and every
 workload cluster that may answer, keyed by its kube-system UID: the real one and any
 that shares its CA. One event is one write of the controller, or one `Env` jump made by
 anybody else: nodes acking, k0s replacing members, CAPI, an operator, the clock. What the
 controller reads of the workload clusters are events as well (`Saw`), and so is the start of
 a pass, which knows nothing yet. A run is a sequence of events in any order, so a pass that
 crashes between two writes is a run that simply goes on without the second one.

 Every write anywhere takes a fresh revision from one counter, `step`; an object's `rv` is
 the revision of its last write (resourceVersion).
*/
module HaWorld {
  import opened Wrappers
  import opened EtcdTypes
  import opened IdentityPin
  import opened OrphanMatching

  // Seconds.
  const MEMBER_LEAVE_TIMEOUT := 5 * 60
  const MEMBER_LEAVE_CAP := 10 * 60
  const LEAVE_UNREACHABLE_BOUND := MEMBER_LEAVE_TIMEOUT + MEMBER_LEAVE_CAP
  const ORPHAN_CLOCK_SKEW := 5 * 60

  /** The orphan-leave annotation: a removal on record, or text that is none. */
  datatype OrphanRecord = Record(name: string, id: string, at: nat) | Unparsable

  datatype Kcp = Kcp(
    rv: nat,
    pin: string,                  // workload-cluster-uid, "" when absent
    mismatch: Option<string>,     // workload-cluster-identity-mismatch
    record: Option<OrphanRecord>, // etcd-orphan-member-leave
    k0s: bool,
    deleting: bool,
    version: string,
    kubeconfigReady: bool)

  predicate Frozen(k: Kcp) {
    k.mismatch.Some?
  }

  datatype Sentinel = LeaveRequested | Left | Other

  datatype Entry = Entry(value: Sentinel, rv: nat)

  datatype Cluster = Cluster(
    hasAPI: bool,                     // serves the EtcdMember API
    members: map<string, EtcdMember>,
    leaves: map<string, Entry>)       // the leave ConfigMap, by node name

  /** Where and when a Machine's leave was first written, over whatever stood there. */
  datatype Force = Force(cluster: string, node: string, at: nat)

  /** An annotation of the handshake, as written on a Machine. */
  datatype Note =
    | RequestedNote(machine: string, stamp: Stamp)
    | UnreachableNote(machine: string, stamp: Stamp)
    | DelegatedNote(machine: string, stamp: Stamp)
    | MemberIDNote(machine: string, id: string)

  /** What can be read of a workload cluster, and of the reports of its nodes. */
  datatype Fact =
    | Answered(c: string)                                   // the UID of kube-system is c
    | LeavesAre(c: string, leaves: map<string, Entry>)
    | MemberIs(c: string, member: EtcdMember)
    | NoMember(c: string, name: string)
    | NoMemberAPI(c: string)
    | MembersAre(c: string, list: seq<EtcdMember>)
    | Replaced(c: string, member: EtcdMember)               // it is not the object read any more
    | ReportsAre(reports: Reports)

  datatype World = World(
    kcp: Kcp,
    machines: map<string, Machine>,
    clusters: map<string, Cluster>,
    reports: Reports,            // the etcd-status Secret as a read shows it; the nodes write it
    now: nat,
    step: nat,
    passAt: nat,                 // when the pass at work began
    forced: map<string, Force>,  // history: the forced requests, by Machine name
    pins: set<string>,           // history: every UID ever pinned
    names: set<string>,          // history: every Machine name ever used
    nodes: map<string, string>,  // history: the Node each Machine registered, by Machine name
    early: set<string>,          // history: the Machines that had a Node with no leave requested
    records: set<OrphanRecord>,  // history: every orphan record ever stored
    notes: set<Note>,            // history: every annotation ever written on a Machine
    seen: set<Fact>)             // what the pass at work has read

  /** Why a member that was read, or may be there, is not surely the Machine's own. */
  datatype Doubt =
    | Unserved
    | NoID(member: EtcdMember)
    | OtherID(member: EtcdMember, recorded: string)
    | OtherAddress(member: EtcdMember, machine: Machine)
    | OtherNode(member: EtcdMember, machine: Machine)

  /** Why a hook is dropped, with the evidence read for it. `c` is the UID of the cluster the
      evidence was read from. */
  datatype Release =
    | OnAck(c: string, node: string, entry: Entry)
    | NotReported(c: string, node: string)
    | NotJoined(c: string, member: EtcdMember)
    | NoSuchMember(c: string, node: string)
    | CannotTell(c: string, node: string, doubt: Doubt)
    | Unreachable(since: Stamp)
    | Capped(since: Stamp)
    | NotK0s

  /** What an orphan's removal was judged on: the Machines, the joined members of a cluster and
      the reports as read, and the desired replicas. */
  datatype Check = Check(cluster: string, machines: seq<Machine>, joined: seq<EtcdMember>, status: Reports, desired: int)

  /** Why spec.leave is written: an orphan goes, or stays after all, as the record that was read
      says; or the member of a departing Machine goes. */
  datatype Purpose =
    | ForOrphan(check: Check, record: OrphanRecord)
    | TakeBack(machines: seq<Machine>, record: OrphanRecord)
    | ForMachine(machine: string)

  datatype Event =
    | Env(next: World)
    | NewPass
    | Saw(fact: Fact)
    | SetMismatch(value: string)
    | ClearMismatch
    | SetPin(uid: string)
    | SetRecord(record: OrphanRecord, check: Check)
    | ClearRecord
    | ForceRequest(c: string, node: string, machine: string)
    | KeepRequest(c: string, node: string)
    | StampRequested(machine: string, stamp: Stamp)
    | StampUnreachable(machine: string, stamp: Stamp)
    | Delegate(machine: string, at: Option<Stamp>, id: Option<string>)
    | DropHook(machine: string, why: Release)
    | SetLeave(c: string, name: string, leave: bool, purpose: Purpose)

  // ---- what others may do ----

  /** The environment changes an object only by writing it. */
  predicate EntriesMove(a: map<string, Entry>, b: map<string, Entry>, lo: nat, hi: nat) {
    forall n | n in b :: (n in a && b[n] == a[n]) || lo < b[n].rv <= hi
  }

  predicate MembersMove(a: map<string, EtcdMember>, b: map<string, EtcdMember>, lo: nat, hi: nat) {
    forall n | n in b :: b[n].name == n && ((n in a && b[n] == a[n]) || lo < b[n].rv <= hi)
  }

  /** The annotations of the handshake belong to the controller; a hook is never put back, and a
      Machine keeps the Node it registered. */
  predicate Kept(m: Machine, m': Machine) {
    && m'.name == m.name && m'.requestedAt == m.requestedAt && m'.unreachableSince == m.unreachableSince
    && m'.delegatedAt == m.delegatedAt && m'.memberID == m.memberID && (m'.hook ==> m.hook)
    && (m.nodeRef.Some? ==> m'.nodeRef == m.nodeRef)
  }

  predicate Unannotated(m: Machine) {
    m.requestedAt.None? && m.unreachableSince.None? && m.delegatedAt.None? && m.memberID.None?
  }

  /** Machine names are never handed out twice. Node names may be. */
  predicate MachinesMove(w: World, w': World) {
    forall k | k in w'.machines ::
      && k in w'.names && w'.machines[k].name == k
      && if k in w.machines then Kept(w.machines[k], w'.machines[k])
         else k !in w.names && Unannotated(w'.machines[k])
  }

  /** The history of Nodes says what it should of a Machine. */
  predicate NodeOk(m: Machine, nodes: map<string, string>, early: set<string>) {
    && (m.nodeRef.Some? ==> m.name in nodes && nodes[m.name] == m.nodeRef.value)
    && (m.nodeRef.Some? && m.requestedAt.None? ==> m.name in early)
    && (m.nodeRef.None? ==> m.name !in early)
  }

  /** Nodes are registered, and never change; a Machine is early only if no leave was requested. */
  predicate NodesMove(w: World, w': World) {
    && (forall k | k in w.nodes :: k in w'.nodes && w'.nodes[k] == w.nodes[k])
    && w.early <= w'.early
    && (forall n | n in w.notes :: n.RequestedNote? ==> n.machine in w.early || n.machine !in w'.early)
    && (forall k | k in w'.machines :: NodeOk(w'.machines[k], w'.nodes, w'.early))
  }

  /** Everything everybody but the controller does: any edit of the pin and of the freeze, any
      change of members, acks and reports, in any cluster, at any time. Only the orphan record,
      which nobody else writes, stays. */
  predicate Rely(w: World, w': World) {
    && w.step <= w'.step && w.now <= w'.now && w.passAt == w'.passAt
    && w.forced == w'.forced && w.pins <= w'.pins && w.names <= w'.names
    && w.records == w'.records && w.notes == w'.notes && w.seen == w'.seen
    && (w'.kcp == w.kcp || (w.step < w'.kcp.rv <= w'.step && w'.kcp.record == w.kcp.record))
    && (w'.kcp.pin == "" || w'.kcp.pin in w'.pins) && "" !in w'.pins
    && MachinesMove(w, w') && NodesMove(w, w')
    && w.clusters.Keys <= w'.clusters.Keys
    && (forall c | c in w'.clusters ::
          if c in w.clusters
          then MembersMove(w.clusters[c].members, w'.clusters[c].members, w.step, w'.step) &&
               EntriesMove(w.clusters[c].leaves, w'.clusters[c].leaves, w.step, w'.step)
          else MembersMove(map[], w'.clusters[c].members, w.step, w'.step) &&
               EntriesMove(map[], w'.clusters[c].leaves, w.step, w'.step))
  }

  // ---- what one write does ----

  function PutKcp(w: World, k: Kcp): World {
    w.(kcp := k.(rv := w.step + 1), step := w.step + 1)
  }

  function PutMachine(w: World, m: Machine): World {
    w.(machines := w.machines[m.name := m], step := w.step + 1)
  }

  function PutEntry(w: World, c: string, node: string, value: Sentinel): World
    requires c in w.clusters
  {
    var cl := w.clusters[c];
    w.(clusters := w.clusters[c := cl.(leaves := cl.leaves[node := Entry(value, w.step + 1)])], step := w.step + 1)
  }

  function PutMember(w: World, c: string, m: EtcdMember): World
    requires c in w.clusters
  {
    var cl := w.clusters[c];
    w.(clusters := w.clusters[c := cl.(members := cl.members[m.name := m.(rv := w.step + 1)])], step := w.step + 1)
  }

  function Noting(w: World, note: Note): World {
    w.(notes := w.notes + {note})
  }

  /** The object an event writes exists. */
  predicate Enabled(w: World, e: Event) {
    match e
    case ForceRequest(c, _, k) => c in w.clusters
    case KeepRequest(c, _) => c in w.clusters
    case StampRequested(k, _) => k in w.machines
    case StampUnreachable(k, _) => k in w.machines
    case Delegate(k, _, _) => k in w.machines
    case DropHook(k, _) => k in w.machines
    case SetLeave(c, n, _, _) => c in w.clusters && n in w.clusters[c].members
    case _ => true
  }

  /** A forced request puts out of date whatever was read before it. */
  function Apply(w: World, e: Event): World {
    if !Enabled(w, e) then w
    else
      match e
      case Env(next) => next
      case NewPass => w.(seen := {}, passAt := w.now)
      case Saw(f) => w.(seen := w.seen + {f})
      case SetMismatch(v) => PutKcp(w, w.kcp.(mismatch := Some(v)))
      case ClearMismatch => PutKcp(w, w.kcp.(mismatch := None))
      case SetPin(u) => PutKcp(w, w.kcp.(pin := u)).(pins := w.pins + {u})
      case SetRecord(r, _) => PutKcp(w, w.kcp.(record := Some(r))).(records := w.records + {r})
      case ClearRecord => PutKcp(w, w.kcp.(record := None))
      case ForceRequest(c, n, k) =>
        PutEntry(w, c, n, LeaveRequested).(forced := w.forced[k := Force(c, n, w.step + 1)], seen := {})
      case KeepRequest(c, n) =>
        if n in w.clusters[c].leaves && w.clusters[c].leaves[n].value == Left then w else PutEntry(w, c, n, LeaveRequested)
      case StampRequested(k, t) => Noting(PutMachine(w, w.machines[k].(requestedAt := Some(t), name := k)), RequestedNote(k, t))
      case StampUnreachable(k, t) => Noting(PutMachine(w, w.machines[k].(unreachableSince := Some(t), name := k)), UnreachableNote(k, t))
      case Delegate(k, t, id) =>
        var m := w.machines[k].(name := k);
        PutMachine(w, m.(delegatedAt := if t.Some? then t else m.delegatedAt, memberID := if id.Some? then id else m.memberID))
        .(notes := w.notes + (if t.Some? then {DelegatedNote(k, t.value)} else {}) + if id.Some? then {MemberIDNote(k, id.value)} else {})
      case DropHook(k, _) => PutMachine(w, w.machines[k].(hook := false, name := k))
      case SetLeave(c, n, v, _) => PutMember(w, c, w.clusters[c].members[n].(leave := v, name := n))
  }

  // ---- what the controller may write, and when ----

  predicate Past(stamp: Option<Stamp>, now: nat, bound: nat) {
    stamp.Some? && stamp.value.At? && now > stamp.value.t + bound
  }

  /** A read tells the truth about the world it meets. */
  ghost predicate Holds(w: World, f: Fact) {
    match f
    case Answered(c) => c != "" && c in w.clusters
    case LeavesAre(c, leaves) => c in w.clusters && w.clusters[c].leaves == leaves
    case MemberIs(c, m) => c in w.clusters && w.clusters[c].hasAPI && m.name in w.clusters[c].members && w.clusters[c].members[m.name] == m
    case NoMember(c, n) => c in w.clusters && w.clusters[c].hasAPI && n !in w.clusters[c].members
    case NoMemberAPI(c) => c in w.clusters && !w.clusters[c].hasAPI
    case MembersAre(c, list) => c in w.clusters && w.clusters[c].hasAPI && Lists(list, w.clusters[c].members)
    case Replaced(c, m) => Outdated(m, c, w)
    case ReportsAre(reports) => w.reports == reports
  }

  /** The object is not the one read any more, and never will be. */
  ghost predicate Outdated(m: EtcdMember, c: string, w: World) {
    && m.rv <= w.step && c in w.clusters
    && (m.name in w.clusters[c].members ==> w.clusters[c].members[m.name].rv != m.rv)
  }

  /** Every object, once. */
  ghost predicate Lists(list: seq<EtcdMember>, members: map<string, EtcdMember>) {
    && DistinctMembers(list) && MemberNames(list) == members.Keys
    && forall m | m in list :: m.name in members && members[m.name] == m
  }

  /** The pass has had an answer of the cluster, which is one that was pinned. */
  ghost predicate FromPinned(w: World, c: string) {
    c in w.pins && Answered(c) in w.seen
  }

  ghost predicate ReadEntry(seen: set<Fact>, c: string, node: string, entry: Entry) {
    exists leaves :: LeavesAre(c, leaves) in seen && node in leaves && leaves[node] == entry
  }

  ghost predicate ReadUnreported(seen: set<Fact>, node: string) {
    exists reports :: ReportsAre(reports) in seen && node !in reports
  }

  /** What the doubt rests on: there is no EtcdMember API; or the member of that name was read, and
      has no ID, or another than was recorded for the Machine, or another Machine reports its address
      or goes by its name. */
  ghost predicate Doubted(seen: set<Fact>, notes: set<Note>, k: string, c: string, node: string, doubt: Doubt) {
    match doubt
    case Unserved => NoMemberAPI(c) in seen
    case NoID(m) => MemberIs(c, m) in seen && m.name == node && m.id.None?
    case OtherID(m, id) => MemberIs(c, m) in seen && m.name == node && m.id.Some? && m.id.value != id && MemberIDNote(k, id) in notes
    case OtherAddress(m, x) =>
      MemberIs(c, m) in seen && m.name == node && x.name != k && m.peer.Some? && Some(m.peer.value) in x.addresses
    case OtherNode(m, x) =>
      MemberIs(c, m) in seen && m.name == node && x.name != k && (x.nodeRef == Some(node) || (x.nodeRef.None? && ToLower(x.hostname) == node))
  }

  ghost predicate ReadJoined(seen: set<Fact>, c: string, joined: seq<EtcdMember>) {
    exists list :: MembersAre(c, list) in seen && forall m :: m in joined <==> m in list && !m.notJoined
  }

  /** A leave is requested under the Node's name, which the Machine had before, or under a name that
      it rendered. */
  ghost predicate NodeOrLabel(w: World, k: string, node: string) {
    IsLabel(node) || (k in w.early && k in w.nodes && w.nodes[k] == node)
  }

  /** An ack is looked for under the Machine's Node name, or under any if it had no Node when the
      leave was requested. */
  ghost predicate NodeOrLate(w: World, k: string, node: string) {
    k !in w.early || (k in w.nodes && w.nodes[k] == node)
  }

  /** The evidence a hook may be dropped on: the word of a pinned cluster that this pass read, a
      registered node's silence, or a bound that a stamp of this Machine waited out. */
  ghost predicate ReleaseOk(w: World, k: string, why: Release) {
    match why
    case OnAck(c, node, entry) =>
      FromPinned(w, c) && entry.value == Left && k in w.forced && ReadEntry(w.seen, c, node, entry) && NodeOrLate(w, k, node)
    case NotReported(c, node) => FromPinned(w, c) && k in w.forced && ReadUnreported(w.seen, node)
    case NotJoined(c, member) => FromPinned(w, c) && member.notJoined && MemberIs(c, member) in w.seen
    case NoSuchMember(c, node) => FromPinned(w, c) && NoMember(c, node) in w.seen
    case CannotTell(c, node, doubt) => FromPinned(w, c) && Doubted(w.seen, w.notes, k, c, node, doubt)
    case Unreachable(t) => UnreachableNote(k, t) in w.notes && Past(Some(t), w.now, LEAVE_UNREACHABLE_BOUND)
    case Capped(t) => DelegatedNote(k, t) in w.notes && Past(Some(t), w.now, MEMBER_LEAVE_CAP)
    case NotK0s => true
  }

  /** No Machine is being deleted, the member is nobody's, every Machine has another one, and
      the healthy voters that stay are enough. */
  ghost predicate SafeToRemove(check: Check, member: EtcdMember) {
    && DistinctMachines(check.machines) && DistinctMembers(check.joined) && member in check.joined
    && (forall m | m in check.machines :: !m.deleting)
    && Unaccounted(check.machines, member)
    && !Blocked(check.machines, check.joined, member.name, check.status, check.desired)
  }

  predicate OnRecord(record: Option<OrphanRecord>, member: EtcdMember) {
    record.Some? && record.value.Record? && record.value.name == member.name && member.id == Some(record.value.id)
  }

  /** The pass read the members and the reports of the check, the members from a pinned cluster. */
  ghost predicate Judged(w: World, check: Check) {
    FromPinned(w, check.cluster) && ReadJoined(w.seen, check.cluster, check.joined) && ReportsAre(check.status) in w.seen
  }

  /** spec.leave is written in a pinned cluster only, once it answered: on a member that a record
      names by name and ID, or on one whose ID the departing Machine was given. The record is the
      one that was read, which need not stand any more. */
  ghost predicate LeaveOk(w: World, c: string, member: EtcdMember, leave: bool, purpose: Purpose) {
    && FromPinned(w, c)
    && match purpose
       case ForOrphan(check, record) =>
         && leave && record in w.records && OnRecord(Some(record), member)
         && SafeToRemove(check, member) && check.cluster == c && Judged(w, check)
       case TakeBack(machines, record) =>
         !leave && record in w.records && OnRecord(Some(record), member) && !Unaccounted(machines, member)
       case ForMachine(k) => leave && k in w.names && member.id.Some? && MemberIDNote(k, member.id.value) in w.notes
  }

  /** The writes to the KairosControlPlane depend on that object alone. */
  ghost predicate KcpWriteOk(k: Kcp, e: Event) {
    match e
    case SetMismatch(v) =>
      !Frozen(k) && exists uid, via, at :: v == MismatchValue(uid, via, at, k.pin)
    case ClearMismatch =>
      Frozen(k) && RecordedPin(k.mismatch.value).Some? && RecordedPin(k.mismatch.value).value != DisplayUID(k.pin)
    case SetPin(u) => !Frozen(k) && k.pin == "" && UidShaped(u)
    case SetRecord(r, check) =>
      !Frozen(k) && k.record.None? && r.Record? && IsSubdomain(r.name) &&
      exists e :: OnRecord(Some(r), e) && SafeToRemove(check, e)
    case ClearRecord => !Frozen(k) && k.record.Some?
    case _ => true
  }

  /** What the pass must have read for a write to the KairosControlPlane: a pin is an answer, a
      freeze is written on an answer that is not the pin, and a record on a check, with a time of the
      pass. */
  ghost predicate Basis(w: World, pin: string, e: Event) {
    match e
    case SetMismatch(v) => exists uid, via, at :: v == MismatchValue(uid, via, at, pin) && uid != pin && Answered(uid) in w.seen
    case SetPin(u) => Answered(u) in w.seen
    case SetRecord(r, check) => Judged(w, check) && r.Record? && w.passAt <= r.at <= w.now
    case _ => true
  }

  ghost predicate Legal(w: World, e: Event) {
    Enabled(w, e) &&
    match e
    case Env(next) => Rely(w, next)
    case Saw(f) => Holds(w, f)
    case ForceRequest(c, node, k) => FromPinned(w, c) && k in w.names && NodeOrLabel(w, k, node)
    case KeepRequest(c, _) => FromPinned(w, c)
    case StampRequested(k, t) => k in w.forced && Timely(t, w)
    case StampUnreachable(k, t) => Timely(t, w)
    case Delegate(k, t, _) => t.Some? ==> Timely(t.value, w)
    case DropHook(k, why) => ReleaseOk(w, k, why)
    case SetLeave(c, n, v, p) => LeaveOk(w, c, w.clusters[c].members[n], v, p)
    case _ => KcpWriteOk(w.kcp, e) && Basis(w, w.kcp.pin, e)
  }

  /** A time taken during the pass. */
  predicate Timely(t: Stamp, w: World) {
    t.At? && w.passAt <= t.t <= w.now
  }

  // ---- the invariant ----

  /** Nothing that acks a Machine's request is older than the request. */
  ghost predicate FreshAck(w: World, k: string)
    requires k in w.forced
  {
    var f := w.forced[k];
    && f.cluster in w.clusters && f.at <= w.step
    && (f.node in w.clusters[f.cluster].leaves ==>
          var entry := w.clusters[f.cluster].leaves[f.node];
          entry.value == Left ==> entry.rv > f.at)
  }

  ghost predicate RevisionsUpTo(cl: Cluster, step: nat) {
    && (forall n | n in cl.members :: cl.members[n].rv <= step && cl.members[n].name == n)
    && (forall n | n in cl.leaves :: cl.leaves[n].rv <= step)
  }

  ghost predicate KcpInv(w: World) {
    && w.kcp.rv <= w.step && (w.kcp.pin == "" || w.kcp.pin in w.pins) && "" !in w.pins
    && (w.kcp.record.Some? ==> w.kcp.record.value in w.records) && w.passAt <= w.now
  }

  /** Every annotation of the handshake on m was written. */
  predicate Noted(m: Machine, notes: set<Note>) {
    && (m.requestedAt.Some? ==> RequestedNote(m.name, m.requestedAt.value) in notes)
    && (m.unreachableSince.Some? ==> UnreachableNote(m.name, m.unreachableSince.value) in notes)
    && (m.delegatedAt.Some? ==> DelegatedNote(m.name, m.delegatedAt.value) in notes)
    && (m.memberID.Some? ==> MemberIDNote(m.name, m.memberID.value) in notes)
  }

  predicate MachineOk(m: Machine, k: string, names: set<string>, notes: set<Note>) {
    k in names && m.name == k && Noted(m, notes)
  }

  ghost predicate MachinesInv(w: World) {
    forall k | k in w.machines :: MachineOk(w.machines[k], k, w.names, w.notes)
  }

  ghost predicate NodesInv(w: World) {
    && (forall k | k in w.machines :: NodeOk(w.machines[k], w.nodes, w.early))
    && (forall k | k in w.forced :: NodeOrLabel(w, k, w.forced[k].node))
  }

  /** A request is stamped only once it was forced. */
  ghost predicate NotesInv(w: World) {
    forall k, t :: RequestedNote(k, t) in w.notes ==> k in w.forced
  }

  /** No ack among `leaves` is older than the request it would answer. */
  ghost predicate FreshLeaves(leaves: map<string, Entry>, c: string, forced: map<string, Force>) {
    forall k | k in forced && forced[k].cluster == c && forced[k].node in leaves && leaves[forced[k].node].value == Left ::
      leaves[forced[k].node].rv > forced[k].at
  }

  /** Nor among those the pass has read. */
  ghost predicate SeenInv(w: World) {
    forall c, leaves :: LeavesAre(c, leaves) in w.seen ==> FreshLeaves(leaves, c, w.forced)
  }

  ghost predicate ClustersInv(w: World) {
    forall c | c in w.clusters :: RevisionsUpTo(w.clusters[c], w.step)
  }

  ghost predicate AcksInv(w: World) {
    forall k | k in w.forced :: FreshAck(w, k)
  }

  /** An EtcdMember read earlier: the object is still this one if its revision still is. */
  ghost predicate MemberView(m: EtcdMember, c: string, w: World) {
    && m.rv <= w.step && c in w.clusters
    && (m.name in w.clusters[c].members && w.clusters[c].members[m.name].rv == m.rv ==> w.clusters[c].members[m.name] == m)
  }

  ghost predicate ReadMember(seen: set<Fact>, c: string, m: EtcdMember) {
    MemberIs(c, m) in seen || exists list :: MembersAre(c, list) in seen && m in list
  }

  ghost predicate SeenMembersInv(w: World) {
    && (forall c, m :: MemberIs(c, m) in w.seen ==> MemberView(m, c, w))
    && (forall c, list :: MembersAre(c, list) in w.seen ==> forall m | m in list :: MemberView(m, c, w))
    && (forall c, m :: Replaced(c, m) in w.seen ==> Outdated(m, c, w))
  }

  ghost predicate Inv(w: World) {
    KcpInv(w) && MachinesInv(w) && NodesInv(w) && ClustersInv(w) && AcksInv(w) && NotesInv(w) && SeenInv(w) && SeenMembersInv(w)
  }

  lemma EnvKeepsClusters(w: World, next: World)
    requires ClustersInv(w) && Rely(w, next)
    ensures ClustersInv(next)
  {
    forall c | c in next.clusters
      ensures RevisionsUpTo(next.clusters[c], next.step)
    {
      if c in w.clusters {
        assert RevisionsUpTo(w.clusters[c], w.step);
      }
    }
  }

  lemma EnvKeepsAck(w: World, next: World, k: string)
    requires k in w.forced && FreshAck(w, k) && Rely(w, next)
    ensures FreshAck(next, k)
  {
    var f := w.forced[k];
    assert EntriesMove(w.clusters[f.cluster].leaves, next.clusters[f.cluster].leaves, w.step, next.step);
  }

  lemma WriteKeepsAck(w: World, e: Event, k: string)
    requires k in w.forced && FreshAck(w, k) && !e.Env?
    ensures k in Apply(w, e).forced && FreshAck(Apply(w, e), k)
  {
  }

  lemma ForceIsFresh(w: World, e: Event)
    requires e.ForceRequest? && Enabled(w, e)
    ensures FreshAck(Apply(w, e), e.machine)
  {
  }

  /** No step of anybody makes an old ack count for a newer request. */
  lemma AcksKept(w: World, e: Event)
    requires AcksInv(w) && Legal(w, e)
    ensures AcksInv(Apply(w, e))
  {
    forall k | k in Apply(w, e).forced
      ensures FreshAck(Apply(w, e), k)
    {
      if k !in w.forced {
        ForceIsFresh(w, e);
      } else if e.Env? {
        EnvKeepsAck(w, e.next, k);
      } else {
        WriteKeepsAck(w, e, k);
      }
    }
  }

  lemma WriteKeepsCluster(w: World, e: Event, c: string)
    requires c in w.clusters && RevisionsUpTo(w.clusters[c], w.step) && !e.Env?
    ensures c in Apply(w, e).clusters && RevisionsUpTo(Apply(w, e).clusters[c], Apply(w, e).step)
  {
  }

  lemma ClustersKept(w: World, e: Event)
    requires ClustersInv(w) && (e.Env? ==> Rely(w, e.next))
    ensures ClustersInv(Apply(w, e))
  {
    if e.Env? {
      EnvKeepsClusters(w, e.next);
    } else {
      forall c | c in Apply(w, e).clusters
        ensures RevisionsUpTo(Apply(w, e).clusters[c], Apply(w, e).step)
      {
        WriteKeepsCluster(w, e, c);
      }
    }
  }

  lemma EnvKeepsMachines(w: World, next: World)
    requires MachinesInv(w) && Rely(w, next)
    ensures MachinesInv(next)
  {
    forall k | k in next.machines
      ensures MachineOk(next.machines[k], k, next.names, next.notes)
    {
      assert k in w.machines ==> MachineOk(w.machines[k], k, w.names, w.notes);
    }
  }

  lemma WriteKeepsMachine(w: World, e: Event, k: string)
    requires k in w.machines && MachineOk(w.machines[k], k, w.names, w.notes) && !e.Env?
    ensures k in Apply(w, e).machines && MachineOk(Apply(w, e).machines[k], k, Apply(w, e).names, Apply(w, e).notes)
  {
  }

  lemma MachinesKept(w: World, e: Event)
    requires MachinesInv(w) && (e.Env? ==> Rely(w, e.next))
    ensures MachinesInv(Apply(w, e))
  {
    if e.Env? {
      EnvKeepsMachines(w, e.next);
    } else {
      forall k | k in Apply(w, e).machines
        ensures MachineOk(Apply(w, e).machines[k], k, Apply(w, e).names, Apply(w, e).notes)
      {
        WriteKeepsMachine(w, e, k);
      }
    }
  }

  lemma WriteKeepsNode(w: World, e: Event, k: string)
    requires k in w.machines && w.machines[k].name == k && NodeOk(w.machines[k], w.nodes, w.early) && !e.Env?
    ensures k in Apply(w, e).machines && NodeOk(Apply(w, e).machines[k], Apply(w, e).nodes, Apply(w, e).early)
  {
  }

  /** The history of Nodes only grows. */
  lemma NamesStay(w: World, e: Event, k: string, node: string)
    requires NodeOrLabel(w, k, node) && (e.Env? ==> NodesMove(w, e.next))
    ensures NodeOrLabel(Apply(w, e), k, node)
  {
  }

  lemma ForcedStep(w: World, e: Event, k: string)
    requires Legal(w, e) && k in Apply(w, e).forced
    ensures (k in w.forced && Apply(w, e).forced[k] == w.forced[k]) || NodeOrLabel(w, k, Apply(w, e).forced[k].node)
  {
  }

  lemma ForcedNamesKept(w: World, e: Event)
    requires Legal(w, e) && forall k | k in w.forced :: NodeOrLabel(w, k, w.forced[k].node)
    ensures forall k | k in Apply(w, e).forced :: NodeOrLabel(Apply(w, e), k, Apply(w, e).forced[k].node)
  {
    forall k | k in Apply(w, e).forced
      ensures NodeOrLabel(Apply(w, e), k, Apply(w, e).forced[k].node)
    {
      ForcedStep(w, e, k);
      NamesStay(w, e, k, Apply(w, e).forced[k].node);
    }
  }

  lemma NodesKept(w: World, e: Event)
    requires MachinesInv(w) && NodesInv(w) && Legal(w, e)
    ensures NodesInv(Apply(w, e))
  {
    ForcedNamesKept(w, e);
    if !e.Env? {
      forall k | k in Apply(w, e).machines
        ensures NodeOk(Apply(w, e).machines[k], Apply(w, e).nodes, Apply(w, e).early)
      {
        assert MachineOk(w.machines[k], k, w.names, w.notes);
        WriteKeepsNode(w, e, k);
      }
    }
  }

  lemma NotesKept(w: World, e: Event)
    requires NotesInv(w) && (e.Env? ==> Rely(w, e.next)) && (e.StampRequested? ==> e.machine in w.forced)
    ensures NotesInv(Apply(w, e))
  {
  }

  /** What a pass read stays younger than every request: a later request makes it forget. */
  lemma SeenKept(w: World, e: Event)
    requires AcksInv(w) && SeenInv(w) && Legal(w, e)
    ensures SeenInv(Apply(w, e))
  {
    if e.Saw? && e.fact.LeavesAre? {
      assert forall k | k in w.forced :: FreshAck(w, k);
    }
  }

  lemma ViewKept(w: World, e: Event, m: EtcdMember, c: string)
    requires MemberView(m, c, w) && (e.Env? ==> Rely(w, e.next))
    ensures MemberView(m, c, Apply(w, e))
  {
    if e.Env? {
      assert MembersMove(w.clusters[c].members, e.next.clusters[c].members, w.step, e.next.step);
    }
  }

  lemma OutdatedKept(w: World, e: Event, m: EtcdMember, c: string)
    requires Outdated(m, c, w) && (e.Env? ==> Rely(w, e.next))
    ensures Outdated(m, c, Apply(w, e))
  {
    if e.Env? {
      assert MembersMove(w.clusters[c].members, e.next.clusters[c].members, w.step, e.next.step);
    }
  }

  /** What a member's object that is read shows is known to be of its revision. */
  lemma ReadIsView(w: World, f: Fact)
    requires ClustersInv(w) && Holds(w, f)
    ensures f.MemberIs? ==> MemberView(f.member, f.c, w)
    ensures f.MembersAre? ==> forall m | m in f.list :: MemberView(m, f.c, w)
  {
    if f.MemberIs? || f.MembersAre? {
      assert RevisionsUpTo(w.clusters[f.c], w.step);
    }
  }

  lemma SeenMembersKept(w: World, e: Event)
    requires ClustersInv(w) && SeenMembersInv(w) && Legal(w, e)
    ensures SeenMembersInv(Apply(w, e))
  {
    var w' := Apply(w, e);
    if e.Saw? {
      ReadIsView(w, e.fact);
    }
    forall c, m | MemberIs(c, m) in w'.seen
      ensures MemberView(m, c, w')
    {
      ViewKept(w, e, m, c);
    }
    forall c, m | Replaced(c, m) in w'.seen
      ensures Outdated(m, c, w')
    {
      OutdatedKept(w, e, m, c);
    }
    forall c, list | MembersAre(c, list) in w'.seen
      ensures forall m | m in list :: MemberView(m, c, w')
    {
      forall m | m in list
        ensures MemberView(m, c, w')
      {
        ViewKept(w, e, m, c);
      }
    }
  }

  lemma KcpKept(w: World, e: Event)
    requires KcpInv(w) && Legal(w, e)
    ensures KcpInv(Apply(w, e))
  {
  }

  lemma InvKept(w: World, e: Event)
    requires Inv(w) && Legal(w, e)
    ensures Inv(Apply(w, e))
  {
    AcksKept(w, e);
    ClustersKept(w, e);
    MachinesKept(w, e);
    NodesKept(w, e);
    NotesKept(w, e);
    SeenKept(w, e);
    SeenMembersKept(w, e);
    KcpKept(w, e);
  }
}
