/**
 The apiservers as a controller pass sees them.

 Every call first lets everybody else act (`Interfere`), then does at most one write, and
 any call may fail; a write that took effect may still report failure. What a call reads of
 a workload cluster is remembered in the world (`seen`), and each write must be legal in
 every world the interference may lead to, on the strength of what was read. So the trace of
 a pass that stops anywhere, crash included, is a legal run, and everything proved of runs
 holds of it: a crash is a pass whose later calls all fail.
*/
module HaApi {
  import opened Wrappers
  import opened EtcdTypes
  import opened IdentityPin
  import opened OrphanMatching
  import opened HaWorld
  import opened HaRuns

  /** A client reaches one apiserver, of one cluster; the code learns which only by asking. */
  datatype Client = Client(via: string, cluster: string)

  datatype Read<T> = Found(value: T) | NotFound | NoAPI | ReadFailed

  datatype PatchResult = Patched | Conflict | PatchFailed

  // ---- scopes ----

  /** One Machine's leave, as the pass that works on it sees it. `late` once the node has had
      its time to ack. */
  datatype LeaveCase = LeaveCase(
    machine: string,
    node: string,
    registered: bool,
    requested: bool,
    k0s: bool,
    pin: string,
    late: bool)

  function CaseOf(m: Machine, k: Kcp, late: bool): LeaveCase {
    LeaveCase(m.name, LeaveNodeName(m), m.nodeRef.Some?, m.requestedAt.Some?, k.k0s, k.pin, late)
  }

  /** What a part of the protocol may write. All but `Nothing` may trip the freeze. */
  datatype Scope =
    | Nothing
    | IdentityOnly               // the pin and the freeze
    | LeaveOf(leave: LeaveCase)  // the leave of one Machine
    | OrphanRemoval              // a new orphan record, and its member's leave
    | OrphanFollowed             // the member on record, and the end of the record
    | OrphanForgotten            // the end of the record

  /** The member itself is judged, and by its own evidence released, in two places only: before
      the first request of a Machine without a Node, and once the node is late. */
  predicate Judges(l: LeaveCase) {
    if l.requested then l.late else !l.registered
  }

  predicate MayDrop(l: LeaveCase, why: Release) {
    match why
    case NotK0s => !l.k0s
    case OnAck(c, node, _) => l.requested && c == l.pin && node == l.node
    case NotReported(c, node) => l.requested && l.registered && c == l.pin && node == l.node
    case Unreachable(_) => !l.requested
    case Capped(_) => l.requested && l.late
    case NoSuchMember(c, node) => Judges(l) && c == l.pin && node == l.node
    case NotJoined(c, member) => Judges(l) && c == l.pin && member.name == l.node
    case CannotTell(c, node, _) => Judges(l) && c == l.pin && node == l.node
  }

  predicate OfLeave(e: Event, l: LeaveCase) {
    match e
    case ForceRequest(c, node, k) => !l.requested && c == l.pin && node == l.node && k == l.machine
    case StampRequested(k, _) => !l.requested && k == l.machine
    case StampUnreachable(k, _) => !l.requested && k == l.machine
    case KeepRequest(c, node) => l.requested && c == l.pin && node == l.node
    case Delegate(k, at, _) => Judges(l) && k == l.machine && (at.Some? ==> l.requested)
    case DropHook(k, why) => k == l.machine && MayDrop(l, why)
    case SetLeave(c, name, leave, purpose) =>
      l.requested && l.late && c == l.pin && name == l.node && leave && purpose == ForMachine(l.machine)
    case _ => false
  }

  predicate InScope(e: Event, s: Scope) {
    e.Env? || e.Saw? || (e.SetMismatch? && s != Nothing) ||
    match s
    case Nothing => false
    case IdentityOnly => e.ClearMismatch? || e.SetPin?
    case LeaveOf(l) => OfLeave(e, l)
    case OrphanRemoval => e.SetRecord? || (e.SetLeave? && e.purpose.ForOrphan?)
    case OrphanFollowed => e.ClearRecord? || (e.SetLeave? && !e.purpose.ForMachine?)
    case OrphanForgotten => e.ClearRecord?
  }

  // ---- what a snapshot is worth ----

  /** A KairosControlPlane read earlier, or patched since: the revision tells whether it is current,
      and what it says was so once. */
  predicate KcpView(k: Kcp, w: World) {
    && k.rv <= w.step && (k.rv == w.kcp.rv ==> k == w.kcp) && (k.pin == "" || k.pin in w.pins)
    && (k.record.Some? ==> k.record.value in w.records)
  }

  /** A Machine read earlier: what it is annotated with was written on it, its Node is the one it
      registered, and it shows whether that was before a leave was requested. */
  predicate MachineView(m: Machine, w: World) {
    && m.name in w.names && Noted(m, w.notes)
    && (m.nodeRef.Some? ==> m.name in w.nodes && w.nodes[m.name] == m.nodeRef.value)
    && (m.nodeRef.Some? && m.requestedAt.None? ==> m.name in w.early)
    && (m.nodeRef.None? && m.requestedAt.Some? ==> m.name !in w.early)
  }

  /** What every caller keeps knowing: the time does not go back, and a pin that was seen was
      pinned. */
  ghost predicate Later(w: World, w': World) {
    w.now <= w'.now && w.passAt == w'.passAt && w.pins <= w'.pins && w.notes <= w'.notes
  }

  /** Nor did the pass request a leave, or forget what it read. */
  ghost predicate Quiet(w: World, w': World) {
    Later(w, w') && w'.forced == w.forced && w.seen <= w'.seen
  }

  /** Nor did it read a member's object. */
  ghost predicate Unread(w: World, w': World) {
    Quiet(w, w') && forall f | f in w'.seen && f.MemberIs? :: f in w.seen
  }

  /** Nor a cluster's identity. */
  ghost predicate Still(w: World, w': World) {
    Unread(w, w') && forall f | f in w'.seen && f.Answered? :: f in w.seen
  }

  /** The writes a reconciler with these snapshots may do now, which leave the snapshots worth
      what they are. */
  ghost function Permitted(w: World, k: Kcp, m: Machine, s: Scope): iset<Event> {
    iset e | Legal(w, e) && InScope(e, s) && KcpView(k, Apply(w, e)) && MachineView(m, Apply(w, e))
  }

  lemma RelyReflexive(w: World)
    requires Inv(w)
    ensures Rely(w, w)
  {
    forall c | c in w.clusters
      ensures MembersMove(w.clusters[c].members, w.clusters[c].members, w.step, w.step)
    {
      assert RevisionsUpTo(w.clusters[c], w.step);
    }
  }

  lemma RelyPermitted(w: World, w': World, k: Kcp, m: Machine, s: Scope)
    requires Inv(w) && Rely(w, w') && KcpView(k, w) && MachineView(m, w)
    ensures Env(w') in Permitted(w, k, m, s) && Still(w, w')
  {
  }

  lemma SawPermitted(w: World, f: Fact, k: Kcp, m: Machine, s: Scope)
    requires Inv(w) && Holds(w, f) && KcpView(k, w) && MachineView(m, w)
    ensures Saw(f) in Permitted(w, k, m, s) && Quiet(w, Apply(w, Saw(f)))
  {
  }

  /** A write of the controller that annotates no Machine. */
  predicate Unstamping(e: Event) {
    !e.Env? && !e.NewPass? && !e.Saw? && !e.StampRequested? && !e.StampUnreachable? && !e.Delegate?
  }

  lemma ApplyLater(w: World, e: Event, k: Kcp, m: Machine)
    requires Inv(w) && Unstamping(e) && KcpView(k, w) && MachineView(m, w)
    ensures Later(w, Apply(w, e)) && KcpView(k, Apply(w, e)) && MachineView(m, Apply(w, e))
    ensures !e.ForceRequest? ==> Still(w, Apply(w, e))
  {
    ApplyStill(w, e);
  }

  /** It makes the pass forget nothing, unless it requests a leave. */
  lemma ApplyStill(w: World, e: Event)
    requires Unstamping(e)
    ensures Later(w, Apply(w, e))
    ensures !e.ForceRequest? ==> Apply(w, e).seen == w.seen && Apply(w, e).forced == w.forced && Still(w, Apply(w, e))
  {
  }

  /** e annotates m with nothing the snapshot has already. */
  predicate StampsOnce(m: Machine, e: Event) {
    match e
    case StampUnreachable(k, _) => k == m.name && m.unreachableSince.None?
    case Delegate(k, at, id) => k == m.name && (at.Some? ==> m.delegatedAt.None?) && (id.Some? ==> m.memberID.None?)
    case _ => false
  }

  /** Its time, if it gives one, is of this pass. */
  predicate InTime(e: Event, w: World) {
    match e
    case StampUnreachable(_, t) => Timely(t, w)
    case Delegate(_, t, _) => t.Some? ==> Timely(t.value, w)
    case _ => true
  }

  function Delegated(m: Machine, at: Option<Stamp>, id: Option<string>): Machine {
    m.(delegatedAt := if at.Some? then at else m.delegatedAt, memberID := if id.Some? then id else m.memberID)
  }

  function Stamped(m: Machine, e: Event): Machine
    requires StampsOnce(m, e)
  {
    match e
    case StampUnreachable(_, t) => m.(unreachableSince := Some(t))
    case Delegate(_, t, id) => Delegated(m, t, id)
  }

  /** The annotations a pass may write now. */
  ghost function Stampable(w: World, m: Machine, s: Scope): iset<Event> {
    iset e | StampsOnce(m, e) && InTime(e, w) && InScope(e, s)
  }

  /** The stamp of a request: the Machine the server answers with is a snapshot, whoever else wrote
      to it. */
  lemma RequestStamped(w: World, t: Stamp, k: Kcp, m: Machine, s: Scope)
    requires Inv(w) && KcpView(k, w) && MachineView(m, w) && m.name in w.machines && m.name in w.forced && Timely(t, w)
    requires InScope(StampRequested(m.name, t), s)
    ensures var e := StampRequested(m.name, t);
            && e in Permitted(w, k, m, s) && Still(w, Apply(w, e)) && m.name in Apply(w, e).machines
            && MachineView(Apply(w, e).machines[m.name], Apply(w, e))
            && Apply(w, e).machines[m.name].name == m.name && Apply(w, e).machines[m.name].requestedAt == Some(t)
  {
  }

  lemma DelegateStampable(w: World, m: Machine, s: Scope, at: Option<Stamp>, id: Option<string>)
    requires (at.Some? ==> m.delegatedAt.None? && Timely(at.value, w)) && (id.Some? ==> m.memberID.None?)
    requires s.LeaveOf? && Judges(s.leave) && s.leave.machine == m.name && (at.Some? ==> s.leave.requested)
    ensures var e := Delegate(m.name, at, id);
            && e in Stampable(w, m, s) && StampsOnce(m, e)
            && Stamped(m, e) == Delegated(m, at, id)
  {
  }

  lemma StampableStays(w: World, w': World, m: Machine, s: Scope, e: Event)
    requires e in Stampable(w, m, s) && Quiet(w, w')
    ensures e in Stampable(w', m, s)
  {
  }

  lemma StampPermitted(w: World, e: Event, k: Kcp, m: Machine, s: Scope)
    requires KcpView(k, w) && MachineView(m, w) && m.name in w.machines && e in Stampable(w, m, s)
    ensures e in Permitted(w, k, m, s) && Still(w, Apply(w, e))
  {
  }

  lemma StampedView(w: World, e: Event, m: Machine, s: Scope)
    requires MachineView(m, w) && m.name in w.machines && e in Stampable(w, m, s)
    ensures StampsOnce(m, e) && MachineView(Stamped(m, e), Apply(w, e))
  {
  }

  /** The node reads a request under its name, or has answered one. */
  predicate Asked(w: World, c: string, node: string) {
    c in w.clusters && node in w.clusters[c].leaves && w.clusters[c].leaves[node].value != Other
  }

  lemma RequestKept(w: World, c: string, node: string, k: Kcp, m: Machine, s: Scope)
    requires Inv(w) && c in w.clusters && c == k.pin != "" && Answered(c) in w.seen && KcpView(k, w) && MachineView(m, w)
    requires InScope(KeepRequest(c, node), s)
    ensures var e := KeepRequest(c, node); e in Permitted(w, k, m, s) && Asked(Apply(w, e), c, node) && Still(w, Apply(w, e))
  {
    ApplyLater(w, KeepRequest(c, node), k, m);
  }

  lemma RequestForced(w: World, c: string, node: string, k: Kcp, m: Machine, s: Scope)
    requires Inv(w) && c in w.clusters && c == k.pin != "" && Answered(c) in w.seen && KcpView(k, w) && MachineView(m, w)
    requires InScope(ForceRequest(c, node, m.name), s) && NodeOrLabel(w, m.name, node)
    ensures var e := ForceRequest(c, node, m.name);
            && e in Permitted(w, k, m, s) && Later(w, Apply(w, e)) && Apply(w, e).kcp == w.kcp
            && Apply(w, e).forced == w.forced[m.name := Force(c, node, Apply(w, e).step)]
  {
    ApplyLater(w, ForceRequest(c, node, m.name), k, m);
  }

  /** The name a leave is requested under: the Node's, or a label that the Machine rendered. */
  lemma LeaveNodeNamed(w: World, m: Machine)
    requires MachineView(m, w) && m.requestedAt.None? && (m.nodeRef.Some? || IsLabel(m.hostname))
    ensures NodeOrLabel(w, m.name, LeaveNodeName(m))
  {
    if m.nodeRef.None? {
      LabelIsLower(m.hostname);
    }
  }

  /** The pass had the answer of the cluster that is its pin. */
  ghost predicate OnPin(w: World, pin: string, c: string) {
    c == pin != "" && Answered(c) in w.seen
  }

  /** The evidence a hook is dropped on: what the pass read, and what the snapshot of the Machine
      shows. */
  ghost predicate Evidence(w: World, m: Machine, pin: string, why: Release) {
    match why
    case OnAck(c, node, entry) =>
      OnPin(w, pin, c) && entry.value == Left && m.requestedAt.Some? && ReadEntry(w.seen, c, node, entry) && node == LeaveNodeName(m)
    case NotReported(c, node) => OnPin(w, pin, c) && m.requestedAt.Some? && ReadUnreported(w.seen, node)
    case NotJoined(c, member) => OnPin(w, pin, c) && member.notJoined && MemberIs(c, member) in w.seen
    case NoSuchMember(c, node) => OnPin(w, pin, c) && NoMember(c, node) in w.seen
    case CannotTell(c, node, doubt) => OnPin(w, pin, c) && Doubted(w.seen, w.notes, m.name, c, node, doubt)
    case Unreachable(t) => m.unreachableSince == Some(t) && Past(Some(t), w.now, LEAVE_UNREACHABLE_BOUND)
    case Capped(t) => m.delegatedAt == Some(t) && Past(Some(t), w.now, MEMBER_LEAVE_CAP)
    case NotK0s => true
  }

  lemma EvidenceStays(w: World, w': World, m: Machine, pin: string, why: Release)
    requires Evidence(w, m, pin, why) && Quiet(w, w')
    ensures Evidence(w', m, pin, why)
  {
  }

  lemma EvidenceReleases(w: World, m: Machine, k: Kcp, why: Release)
    requires Inv(w) && KcpView(k, w) && MachineView(m, w) && Evidence(w, m, k.pin, why) && m.name in w.machines
    ensures ReleaseOk(w, m.name, why)
  {
  }

  /** The grounds on which a pass may drop the hook now. */
  ghost function Droppable(w: World, m: Machine, k: Kcp, s: Scope): iset<Release> {
    iset why | Evidence(w, m, k.pin, why) && InScope(DropHook(m.name, why), s)
  }

  lemma DroppableStays(w: World, w': World, m: Machine, k: Kcp, s: Scope, why: Release)
    requires why in Droppable(w, m, k, s) && Quiet(w, w')
    ensures why in Droppable(w', m, k, s)
  {
    EvidenceStays(w, w', m, k.pin, why);
  }

  lemma HookDropped(w: World, m: Machine, k: Kcp, why: Release, s: Scope)
    requires Inv(w) && KcpView(k, w) && MachineView(m, w) && why in Droppable(w, m, k, s) && m.name in w.machines
    ensures var e := DropHook(m.name, why);
            e in Permitted(w, k, m, s) && MachineView(m.(hook := false), Apply(w, e)) && Still(w, Apply(w, e))
  {
    EvidenceReleases(w, m, k, why);
    ApplyLater(w, DropHook(m.name, why), k, m);
  }

  /** The snapshot after a patch: one annotation changed, and the revision. */
  ghost predicate KcpPatched(k: Kcp, e: Event, k': Kcp) {
    k'.rv > k.rv &&
    match e
    case SetMismatch(v) => k' == k.(rv := k'.rv, mismatch := Some(v))
    case ClearMismatch => k' == k.(rv := k'.rv, mismatch := None)
    case SetPin(u) => k' == k.(rv := k'.rv, pin := u)
    case SetRecord(r, _) => k' == k.(rv := k'.rv, record := Some(r))
    case ClearRecord => k' == k.(rv := k'.rv, record := None)
    case _ => false
  }

  predicate OfKcp(e: Event) {
    e.SetMismatch? || e.ClearMismatch? || e.SetPin? || e.SetRecord? || e.ClearRecord?
  }

  lemma BasisStays(w: World, w': World, pin: string, e: Event)
    requires Basis(w, pin, e) && Quiet(w, w')
    ensures Basis(w', pin, e)
  {
    if e.SetMismatch? {
      var uid, via, at :| e.value == MismatchValue(uid, via, at, pin) && uid != pin && Answered(uid) in w.seen;
      assert Answered(uid) in w'.seen;
    }
  }

  lemma PatchedSo(w: World, e: Event)
    requires OfKcp(e) && KcpInv(w)
    ensures KcpPatched(w.kcp, e, Apply(w, e).kcp)
  {
  }

  lemma KcpWritten(w: World, k: Kcp, m: Machine, e: Event, s: Scope)
    requires Inv(w) && KcpView(k, w) && MachineView(m, w) && k.rv == w.kcp.rv && KcpWriteOk(k, e) && OfKcp(e) && InScope(e, s)
    requires Basis(w, k.pin, e)
    ensures e in Permitted(w, k, m, s) && Still(w, Apply(w, e))
    ensures KcpPatched(k, e, Apply(w, e).kcp)
  {
    ApplyLater(w, e, k, m);
    PatchedSo(w, e);
    assert k == w.kcp && Legal(w, e);
  }

  /** The grounds spec.leave is written on: what the snapshots show, and what the pass read. */
  ghost predicate Grounds(w: World, k: Kcp, m: Machine, c: string, member: EtcdMember, leave: bool, purpose: Purpose) {
    && OnPin(w, k.pin, c)
    && match purpose
       case ForOrphan(check, record) =>
         && leave && k.record == Some(record) && OnRecord(k.record, member)
         && (SafeToRemove(check, member) || Replaced(c, member) in w.seen) && check.cluster == c && Judged(w, check)
       case TakeBack(machines, record) =>
         !leave && k.record == Some(record) && OnRecord(k.record, member) && !Unaccounted(machines, member)
       case ForMachine(name) => leave && name == m.name && member.id.Some? && m.memberID == member.id
  }

  lemma GroundsStay(w: World, w': World, k: Kcp, m: Machine, c: string, member: EtcdMember, leave: bool, purpose: Purpose)
    requires Grounds(w, k, m, c, member, leave, purpose) && Quiet(w, w')
    ensures Grounds(w', k, m, c, member, leave, purpose)
  {
  }

  /** spec.leave on an object that was read. */
  datatype Leaving = Leaving(c: string, member: EtcdMember, leave: bool, purpose: Purpose)

  /** The writes of spec.leave a pass may ask for now. */
  ghost function Askable(w: World, k: Kcp, m: Machine, s: Scope): iset<Leaving> {
    iset l: Leaving | ReadMember(w.seen, l.c, l.member) && Grounds(w, k, m, l.c, l.member, l.leave, l.purpose) &&
                      InScope(SetLeave(l.c, l.member.name, l.leave, l.purpose), s)
  }

  lemma AskableStays(w: World, w': World, k: Kcp, m: Machine, s: Scope, l: Leaving)
    requires l in Askable(w, k, m, s) && Quiet(w, w')
    ensures l in Askable(w', k, m, s)
  {
    GroundsStay(w, w', k, m, l.c, l.member, l.leave, l.purpose);
  }

  /** The object is in the cluster. */
  ghost predicate Serves(w: World, c: string, m: EtcdMember) {
    c in w.clusters && m.name in w.clusters[c].members && w.clusters[c].members[m.name] == m
  }

  lemma GroundsSuffice(w: World, k: Kcp, m: Machine, c: string, member: EtcdMember, leave: bool, purpose: Purpose, s: Scope)
    requires Inv(w) && KcpView(k, w) && MachineView(m, w) && Leaving(c, member, leave, purpose) in Askable(w, k, m, s)
    requires c in w.clusters && member.name in w.clusters[c].members && w.clusters[c].members[member.name].rv == member.rv
    ensures var e := SetLeave(c, member.name, leave, purpose); e in Permitted(w, k, m, s) && Still(w, Apply(w, e))
    ensures var w' := Apply(w, SetLeave(c, member.name, leave, purpose)); Serves(w', c, member.(leave := leave, rv := w'.step))
  {
    ApplyLater(w, SetLeave(c, member.name, leave, purpose), k, m);
  }

  /** Any world at all. */
  method AnyWorld() returns (w: World) {
    w := *;
  }

  /** A list call returns each object once, in any order. */
  method Listed(members: map<string, EtcdMember>) returns (list: seq<EtcdMember>)
    requires forall n | n in members :: members[n].name == n
    ensures Lists(list, members)
  {
    list := [];
    var left := members.Keys;
    while left != {}
      invariant left <= members.Keys && DistinctMembers(list)
      invariant forall m | m in list :: m.name in members && m.name !in left && members[m.name] == m
      invariant forall n | n in members :: n in left || members[n] in list
      decreases |left|
    {
      var n :| n in left;
      list := list + [members[n]];
      left := left - {n};
    }
    forall n | n in members
      ensures n in MemberNames(list)
    {
      assert members[n] in list;
    }
  }

  /** Event i of the trace is in the scope. */
  ghost predicate Covers(s: Scope, trace: seq<Event>, i: nat) {
    i < |trace| && InScope(trace[i], s)
  }

  /** What a reconciler remembers of its run: where it started, the worlds before, between and after
      the events, and where its pass began and what the pass may write. */
  datatype History = History(
    start: World, worlds: seq<World>, trace: seq<Event>, base: seq<Event>, began: World, scope: Scope, end: World, kcp: Kcp, target: Machine)

  /** A legal run up to now, the pass began knowing nothing, everything of it is in its scope, and
      the snapshots are what they were, or were made, at some moment. */
  ghost predicate Sound(h: History) {
    && LegalRun(h.worlds, h.trace) && h.worlds[0] == h.start && h.worlds[|h.trace|] == h.end
    && |h.base| < |h.trace| && h.trace[..|h.base|] == h.base && h.worlds[|h.base|] == h.began
    && h.trace[|h.base|] == NewPass
    && KcpView(h.kcp, h.end) && MachineView(h.target, h.end)
    && forall i | |h.base| < i < |h.trace| :: Covers(h.scope, h.trace, i)
  }

  /** Sound, folded: a caller passes it on whole, and only the lemmas about histories look inside. */
  ghost predicate Folded(h: History, n: nat) {
    if n == 0 then Sound(h) else Folded(h, n - 1)
  }

  ghost predicate Held(h: History) {
    exists n: nat :: Folded(h, n)
  }

  lemma Fold(h: History)
    requires Sound(h)
    ensures Held(h)
  {
    assert Folded(h, 0);
  }

  lemma Unfold(h: History)
    requires Held(h)
    ensures Sound(h)
  {
    var n: nat :| Folded(h, n);
    UnfoldFrom(h, n);
  }

  lemma {:induction false} UnfoldFrom(h: History, n: nat)
    requires Folded(h, n)
    ensures Sound(h)
  {
    if n > 0 {
      UnfoldFrom(h, n - 1);
    }
  }

  lemma HistoryInv(h: History)
    requires Held(h)
    ensures Inv(h.end) && KcpView(h.kcp, h.end) && MachineView(h.target, h.end)
  {
    Unfold(h);
    InvAt(h.worlds, h.trace, |h.trace|);
  }

  lemma HistoryGoesOn(h: History, e: Event)
    requires Held(h) && e in Permitted(h.end, h.kcp, h.target, h.scope)
    ensures Held(h.(worlds := h.worlds + [Apply(h.end, e)], trace := h.trace + [e], end := Apply(h.end, e)))
  {
    var trace, end := h.trace + [e], Apply(h.end, e);
    Unfold(h);
    RunExtended(h.worlds, h.trace, e);
    forall i | |h.base| < i < |trace|
      ensures Covers(h.scope, trace, i)
    {
      assert i < |h.trace| ==> Covers(h.scope, h.trace, i);
    }
    Fold(h.(worlds := h.worlds + [end], trace := trace, end := end));
  }

  /** Other snapshots may be worked on. */
  lemma HistoryViews(h: History, k: Kcp, m: Machine)
    requires Held(h) && KcpView(k, h.end) && MachineView(m, h.end)
    ensures Held(h.(kcp := k, target := m))
  {
    Unfold(h);
    Fold(h.(kcp := k, target := m));
  }

  /** A new pass begins where the last one stopped. */
  lemma HistoryBegins(h: History, s: Scope)
    requires Held(h)
    ensures var end := Apply(h.end, NewPass);
            Held(h.(base := h.trace, began := h.end, scope := s, worlds := h.worlds + [end], trace := h.trace + [NewPass], end := end))
  {
    var end := Apply(h.end, NewPass);
    Unfold(h);
    RunExtended(h.worlds, h.trace, NewPass);
    Fold(h.(base := h.trace, began := h.end, scope := s, worlds := h.worlds + [end], trace := h.trace + [NewPass], end := end));
  }

  /** One may write more. */
  lemma HistoryWidens(h: History, s: Scope)
    requires Held(h) && forall e :: InScope(e, h.scope) ==> InScope(e, s)
    ensures Held(h.(scope := s))
  {
    Unfold(h);
    forall i | |h.base| < i < |h.trace|
      ensures Covers(s, h.trace, i)
    {
      assert Covers(h.scope, h.trace, i);
    }
    Fold(h.(scope := s));
  }

  // ---- what a reconciler may do, by its history ----

  lemma EnvAllowed(h: History, next: World)
    requires Held(h) && (Rely(h.end, next) || next == h.end)
    ensures Env(next) in Permitted(h.end, h.kcp, h.target, h.scope) && Still(h.end, next) && next.seen == h.end.seen
  {
    HistoryInv(h);
    if !Rely(h.end, next) {
      RelyReflexive(h.end);
    }
    RelyPermitted(h.end, next, h.kcp, h.target, h.scope);
  }

  lemma SawAllowed(h: History, f: Fact)
    requires Held(h) && Holds(h.end, f)
    ensures Saw(f) in Permitted(h.end, h.kcp, h.target, h.scope) && Quiet(h.end, Apply(h.end, Saw(f)))
  {
    HistoryInv(h);
    SawPermitted(h.end, f, h.kcp, h.target, h.scope);
  }

  lemma KcpAllowed(h: History, e: Event)
    requires Held(h) && h.kcp.rv == h.end.kcp.rv && KcpWriteOk(h.kcp, e) && OfKcp(e) && InScope(e, h.scope)
    requires Basis(h.end, h.kcp.pin, e)
    ensures var w' := Apply(h.end, e);
            && e in Permitted(h.end, h.kcp, h.target, h.scope) && Still(h.end, w')
            && KcpPatched(h.kcp, e, w'.kcp) && KcpView(w'.kcp, w')
  {
    HistoryInv(h);
    KcpWritten(h.end, h.kcp, h.target, e, h.scope);
    HistoryGoesOn(h, e);
  }

  lemma LeaveAllowed(h: History, l: Leaving)
    requires Held(h) && l in Askable(h.end, h.kcp, h.target, h.scope)
    requires l.c in h.end.clusters && l.member.name in h.end.clusters[l.c].members
    requires h.end.clusters[l.c].members[l.member.name].rv == l.member.rv
    ensures var e := SetLeave(l.c, l.member.name, l.leave, l.purpose);
            var w' := Apply(h.end, e);
            && e in Permitted(h.end, h.kcp, h.target, h.scope) && Still(h.end, w')
            && Serves(w', l.c, l.member.(leave := l.leave, rv := w'.step))
  {
    HistoryInv(h);
    GroundsSuffice(h.end, h.kcp, h.target, l.c, l.member, l.leave, l.purpose, h.scope);
  }

  lemma ForceAllowed(h: History, c: string, node: string)
    requires Held(h) && c in h.end.clusters && OnPin(h.end, h.kcp.pin, c) && InScope(ForceRequest(c, node, h.target.name), h.scope)
    requires node == LeaveNodeName(h.target) && h.target.requestedAt.None? && (h.target.nodeRef.Some? || IsLabel(h.target.hostname))
    ensures var e := ForceRequest(c, node, h.target.name);
            var w' := Apply(h.end, e);
            && e in Permitted(h.end, h.kcp, h.target, h.scope) && Later(h.end, w')
            && h.target.name in w'.forced && w'.forced[h.target.name] == Force(c, node, w'.step)
  {
    HistoryInv(h);
    LeaveNodeNamed(h.end, h.target);
    RequestForced(h.end, c, node, h.kcp, h.target, h.scope);
  }

  lemma KeepAllowed(h: History, c: string, node: string)
    requires Held(h) && c in h.end.clusters && OnPin(h.end, h.kcp.pin, c) && InScope(KeepRequest(c, node), h.scope)
    ensures var e := KeepRequest(c, node);
            e in Permitted(h.end, h.kcp, h.target, h.scope) && Asked(Apply(h.end, e), c, node) && Still(h.end, Apply(h.end, e))
  {
    HistoryInv(h);
    RequestKept(h.end, c, node, h.kcp, h.target, h.scope);
  }

  lemma StampAllowed(h: History, e: Event)
    requires Held(h) && h.target.name in h.end.machines && e in Stampable(h.end, h.target, h.scope)
    ensures StampsOnce(h.target, e) && e in Permitted(h.end, h.kcp, h.target, h.scope) && Still(h.end, Apply(h.end, e))
    ensures MachineView(Stamped(h.target, e), Apply(h.end, e))
  {
    HistoryInv(h);
    StampPermitted(h.end, e, h.kcp, h.target, h.scope);
    StampedView(h.end, e, h.target, h.scope);
  }

  lemma RequestAllowed(h: History, t: Stamp)
    requires Held(h) && h.target.name in h.end.machines && h.target.name in h.end.forced && Timely(t, h.end)
    requires InScope(StampRequested(h.target.name, t), h.scope)
    ensures var e := StampRequested(h.target.name, t);
            var w' := Apply(h.end, e);
            && e in Permitted(h.end, h.kcp, h.target, h.scope) && Still(h.end, w') && h.target.name in w'.machines
            && MachineView(w'.machines[h.target.name], w')
            && w'.machines[h.target.name].name == h.target.name && w'.machines[h.target.name].requestedAt == Some(t)
  {
    HistoryInv(h);
    RequestStamped(h.end, t, h.kcp, h.target, h.scope);
  }

  lemma DropAllowed(h: History, why: Release)
    requires Held(h) && h.target.name in h.end.machines && why in Droppable(h.end, h.target, h.kcp, h.scope)
    ensures var e := DropHook(h.target.name, why);
            && e in Permitted(h.end, h.kcp, h.target, h.scope) && Still(h.end, Apply(h.end, e))
            && MachineView(h.target.(hook := false), Apply(h.end, e)) && MachineView(h.target, Apply(h.end, e))
  {
    HistoryInv(h);
    HookDropped(h.end, h.target, h.kcp, why, h.scope);
  }

  lemma PinStands(h: History)
    requires Held(h) && h.kcp.pin != ""
    ensures h.kcp.pin in h.end.pins
  {
    HistoryInv(h);
  }

  lemma ClockIsOn(h: History)
    requires Held(h)
    ensures h.end.passAt <= h.end.now
  {
    HistoryInv(h);
  }

  lemma MembersNamed(h: History, c: string)
    requires Held(h) && c in h.end.clusters
    ensures forall n | n in h.end.clusters[c].members :: h.end.clusters[c].members[n].name == n
  {
    HistoryInv(h);
    assert RevisionsUpTo(h.end.clusters[c], h.end.step);
  }

  /** A member that was read and is not in the list was replaced. */
  lemma ListedOrReplaced(h: History, c: string, list: seq<EtcdMember>)
    requires Held(h) && c in h.end.clusters && h.end.clusters[c].hasAPI && Lists(list, h.end.clusters[c].members)
    ensures forall m | ReadMember(h.end.seen, c, m) :: m in list || Outdated(m, c, h.end)
  {
    HistoryInv(h);
    ListIsExact(h.end, c, list);
  }

  /** The reconciler of one control plane: the objects a pass works on, its clients, and its
      in-memory check times. */
  class Reconciler {
    ghost const start: World     // the world the run began in
    ghost var worlds: seq<World> // the worlds before, between and after the events of the trace
    ghost var base: seq<Event>   // the trace when the pass began
    ghost var began: World       // the world then
    ghost var scope: Scope       // what the pass may write
    ghost var trace: seq<Event>
    ghost var trouble: bool      // some call reported a failure
    ghost var tried: seq<string> // the addresses a client was made for, in order
    var w: World
    var kcp: Kcp                 // the KairosControlPlane as read, and patched since
    var target: Machine          // the Machine at hand, likewise
    var identityCheckedAt: Option<nat>
    var orphanCheckedAt: Option<nat>

    ghost function Story(): History
      reads this
    {
      History(start, worlds, trace, base, began, scope, w, kcp, target)
    }

    ghost predicate Valid()
      reads this
    {
      Held(Story())
    }

    constructor (w: World, target: Machine)
      requires Starts(w) && MachineView(target, w)
      ensures Valid() && this.w == Apply(w, NewPass) && kcp == w.kcp && this.target == target && trace == [NewPass]
      ensures identityCheckedAt == None && orphanCheckedAt == None
    {
      kcp, this.target, began, start := w.kcp, target, w, w;
      this.w, worlds := Apply(w, NewPass), [w, Apply(w, NewPass)];
      base, trace, scope, trouble, tried := [], [NewPass], Nothing, false, [];
      identityCheckedAt, orphanCheckedAt := None, None;
      new;
      assert Step(worlds, trace, 0);
      Fold(Story());
    }

    /** A pass over another part of the protocol begins: what was read before does not count. */
    method Begin(s: Scope)
      requires Valid()
      modifies `base, `scope, `began, `trace, `w, `worlds
      ensures Valid() && base == old(trace) && scope == s && began == old(w)
      ensures trace == old(trace) + [NewPass] && w == Apply(old(w), NewPass) && w.now == old(w).now
    {
      HistoryBegins(Story(), s);
      base, scope, began := trace, s, w;
      worlds, trace := worlds + [Apply(w, NewPass)], trace + [NewPass];
      w := Apply(w, NewPass);
    }

    /** The node turned out to be late. */
    ghost method Widen()
      requires Valid() && scope.LeaveOf?
      modifies `scope
      ensures Valid() && scope == LeaveOf(old(scope).leave.(late := true))
    {
      HistoryWidens(Story(), LeaveOf(scope.leave.(late := true)));
      scope := LeaveOf(scope.leave.(late := true));
    }

    /** The controller starts over: its check times are lost, whatever it was doing. */
    method Restart()
      requires Valid()
      modifies `identityCheckedAt, `orphanCheckedAt
      ensures Valid() && identityCheckedAt == None && orphanCheckedAt == None
    {
      identityCheckedAt, orphanCheckedAt := None, None;
    }

    method Adopt(k: Kcp)
      requires Valid() && KcpView(k, w)
      modifies `kcp
      ensures Valid() && kcp == k
    {
      HistoryInv(Story());
      HistoryViews(Story(), k, target);
      kcp := k;
    }

    /** Another snapshot of a Machine is at hand. */
    method Take(m: Machine)
      requires Valid() && MachineView(m, w)
      modifies `target
      ensures Valid() && target == m
    {
      HistoryInv(Story());
      HistoryViews(Story(), kcp, m);
      target := m;
    }

    /** A call that reports a failure is remembered. */
    ghost method Note(failed: bool)
      requires Valid()
      modifies `trouble
      ensures Valid() && trouble == (old(trouble) || failed)
    {
      trouble := trouble || failed;
    }

    /** One write, at once. */
    method Do(e: Event)
      requires Valid() && e in Permitted(w, kcp, target, scope)
      modifies `trace, `w, `worlds
      ensures Valid() && w == Apply(old(w), e) && trace == old(trace) + [e]
    {
      HistoryGoesOn(Story(), e);
      worlds, trace := worlds + [Apply(w, e)], trace + [e];
      w := Apply(w, e);
    }

    /** Anybody else may have acted. */
    method Interfere()
      requires Valid()
      modifies `trace, `w, `worlds
      ensures Valid() && Still(old(w), w) && trace == old(trace) + [Env(w)] && w.seen == old(w).seen
    {
      var next := AnyWorld();
      if !Rely(w, next) {
        next := w;
      }
      EnvAllowed(Story(), next);
      Do(Env(next));
    }

    /** What a call reads is remembered. */
    method See(f: Fact)
      requires Valid() && Holds(w, f)
      modifies `trace, `w, `worlds
      ensures Valid() && Quiet(old(w), w) && (!f.MemberIs? ==> Unread(old(w), w)) && (!f.MemberIs? && !f.Answered? ==> Still(old(w), w)) && f in w.seen && trace == old(trace) + [Saw(f)]
      ensures w == old(w).(seen := w.seen) && w.seen == old(w).seen + {f}
    {
      SawAllowed(Story(), f);
      Do(Saw(f));
    }

    method Now() returns (t: nat)
      requires Valid()
      modifies `trace, `w, `worlds
      ensures Valid() && Still(old(w), w) && t == w.now && w.passAt <= t && old(trace) <= trace && w.seen == old(w).seen
    {
      Interfere();
      ClockIsOn(Story());
      t := w.now;
    }

    /** A client through one address reaches whatever cluster answers there, if any. */
    method BuildClient(via: string) returns (c: Option<Client>)
      requires Valid()
      modifies `trace, `w, `worlds, `trouble, `tried
      ensures Valid() && Still(old(w), w) && old(trace) <= trace
      ensures trouble == (old(trouble) || c.None?)
      ensures c.Some? ==> c.value.via == via
      ensures tried == old(tried) + [via]
    {
      tried := tried + [via];
      Interfere();
      c := None;
      var answers: bool := *;
      if answers && w.clusters.Keys != {} {
        var uid :| uid in w.clusters.Keys;
        c := Some(Client(via, uid));
      }
      Note(c.None?);
    }

    /** readWorkloadIdentity: the UID of kube-system as the client sees it. An empty one is an error. */
    method ReadIdentity(c: Client) returns (uid: Option<string>)
      requires Valid()
      modifies `trace, `w, `worlds, `trouble
      ensures Valid() && Unread(old(w), w) && old(trace) <= trace
      ensures trouble == (old(trouble) || uid.None?)
      ensures uid.Some? ==> uid.value == c.cluster != "" && Answered(c.cluster) in w.seen
      ensures forall f | f in w.seen && f.Answered? :: f in old(w).seen || uid == Some(f.c)
    {
      Interfere();
      var answers: bool := *;
      uid := if !answers || c.cluster == "" || c.cluster !in w.clusters then None else Some(c.cluster);
      if uid.Some? {
        See(Answered(c.cluster));
      }
      Note(uid.None?);
    }

    /** The leave ConfigMap; a missing one reads as empty. */
    method ReadLeaves(c: Client) returns (leaves: Option<map<string, Entry>>)
      requires Valid()
      modifies `trace, `w, `worlds, `trouble
      ensures Valid() && Still(old(w), w) && old(trace) <= trace
      ensures trouble == (old(trouble) || leaves.None?)
      ensures leaves.Some? ==> LeavesAre(c.cluster, leaves.value) in w.seen
    {
      Interfere();
      var answers: bool := *;
      leaves := None;
      if answers && c.cluster in w.clusters {
        leaves := Some(w.clusters[c.cluster].leaves);
        See(LeavesAre(c.cluster, leaves.value));
      }
      Note(leaves.None?);
    }

    method GetMember(c: Client, name: string) returns (r: Read<EtcdMember>)
      requires Valid()
      modifies `trace, `w, `worlds, `trouble
      ensures Valid() && Quiet(old(w), w) && old(trace) <= trace
      ensures trouble == (old(trouble) || r.ReadFailed?)
      ensures r.Found? ==> r.value.name == name && MemberIs(c.cluster, r.value) in w.seen
      ensures r.Found? ==> |old(trace)| < |trace| && trace[|trace| - 1] == Saw(MemberIs(c.cluster, r.value))
      ensures r.NotFound? ==> NoMember(c.cluster, name) in w.seen
      ensures r.NoAPI? ==> NoMemberAPI(c.cluster) in w.seen
      ensures forall f | f in w.seen && f.Answered? :: f in old(w).seen
      ensures forall f | f in w.seen && f.MemberIs? :: f in old(w).seen || (r.Found? && f == MemberIs(c.cluster, r.value))
    {
      Interfere();
      r := ReadFailed;
      var answers: bool := *;
      if answers && c.cluster in w.clusters {
        MembersNamed(Story(), c.cluster);
        var cl := w.clusters[c.cluster];
        r := if !cl.hasAPI then NoAPI else if name in cl.members then Found(cl.members[name]) else NotFound;
        See(if r.NoAPI? then NoMemberAPI(c.cluster) else if r.Found? then MemberIs(c.cluster, r.value) else NoMember(c.cluster, name));
      }
      Note(r.ReadFailed?);
    }

    method ListMembers(c: Client) returns (r: Read<seq<EtcdMember>>)
      requires Valid()
      modifies `trace, `w, `worlds, `trouble
      ensures Valid() && Still(old(w), w) && r != NotFound && old(trace) <= trace
      ensures trouble == (old(trouble) || r.ReadFailed?)
      ensures r.Found? ==> DistinctMembers(r.value) && MembersAre(c.cluster, r.value) in w.seen
      ensures r.NoAPI? ==> NoMemberAPI(c.cluster) in w.seen
      ensures r.Found? ==> forall m | ReadMember(old(w).seen, c.cluster, m) :: m in r.value || Outdated(m, c.cluster, w)
    {
      Interfere();
      r := ReadFailed;
      var answers: bool := *;
      if answers && c.cluster in w.clusters {
        MembersNamed(Story(), c.cluster);
        var cl := w.clusters[c.cluster];
        r := NoAPI;
        if cl.hasAPI {
          var list := Listed(cl.members);
          r := Found(list);
          ListedOrReplaced(Story(), c.cluster, list);
        }
        See(if cl.hasAPI then MembersAre(c.cluster, r.value) else NoMemberAPI(c.cluster));
      }
      Note(r.ReadFailed?);
    }

    /** readEtcdStatus: the node-written reports say what they like. */
    method ReadStatus() returns (r: Option<Reports>)
      requires Valid()
      modifies `trace, `w, `worlds, `trouble
      ensures Valid() && Still(old(w), w) && old(trace) <= trace
      ensures trouble == (old(trouble) || r.None?)
      ensures w.seen == old(w).seen + if r.Some? then {ReportsAre(r.value)} else {}
    {
      Interfere();
      var answers: bool := *;
      r := None;
      if answers {
        r := Some(w.reports);
        See(ReportsAre(w.reports));
      }
      Note(r.None?);
    }

    /** The write, at the revision of the snapshot. */
    method WriteKcp(e: Event)
      requires Valid() && kcp.rv == w.kcp.rv && KcpWriteOk(kcp, e) && InScope(e, scope) && OfKcp(e)
      requires Basis(w, kcp.pin, e)
      modifies `trace, `w, `worlds
      ensures Valid() && Still(old(w), w) && old(trace) <= trace
      ensures trace == old(trace) + [e] && KcpPatched(kcp, e, w.kcp) && KcpView(w.kcp, w)
    {
      KcpAllowed(Story(), e);
      Do(e);
    }

    /** patchKCPAnnotations: a merge patch pinned to the resourceVersion of the snapshot, which
        takes the new annotations and revision only when the patch reports success. */
    method PatchKcp(e: Event) returns (r: PatchResult)
      requires Valid() && KcpWriteOk(kcp, e) && InScope(e, scope)
      requires OfKcp(e) && Basis(w, kcp.pin, e)
      modifies `trace, `w, `worlds, `kcp, `trouble
      ensures Valid() && Still(old(w), w) && old(trace) <= trace
      ensures trouble == (old(trouble) || r != Patched) && old(trace) <= trace
      ensures r != Patched ==> kcp == old(kcp)
      ensures r == Patched ==> |old(trace)| < |trace| && trace[|trace| - 1] == e && w.kcp == kcp && KcpPatched(old(kcp), e, kcp)
    {
      ghost var before := w;
      Interfere();
      BasisStays(before, w, kcp.pin, e);
      r := KcpNow(e);
      Note(r != Patched);
    }

    /** The patch, when it gets there. */
    method KcpNow(e: Event) returns (r: PatchResult)
      requires Valid() && KcpWriteOk(kcp, e) && InScope(e, scope) && OfKcp(e) && Basis(w, kcp.pin, e)
      modifies `trace, `w, `worlds, `kcp
      ensures Valid() && Still(old(w), w) && old(trace) <= trace
      ensures r != Patched ==> kcp == old(kcp)
      ensures r == Patched ==> trace == old(trace) + [e] && w.kcp == kcp && KcpPatched(old(kcp), e, kcp)
    {
      var applied: bool := *;
      r := *;
      if kcp.rv != w.kcp.rv {
        r := if r == PatchFailed then PatchFailed else Conflict;
      } else if r == Patched || applied {
        WriteKcp(e);
        if r == Patched {
          Adopt(w.kcp);
        }
      }
    }

    /** A merge patch of spec.leave, pinned to the resourceVersion of the member inspected. */
    method PatchLeave(c: Client, member: EtcdMember, leave: bool, purpose: Purpose) returns (r: PatchResult)
      requires Valid() && Leaving(c.cluster, member, leave, purpose) in Askable(w, kcp, target, scope)
      modifies `trace, `w, `worlds, `trouble
      ensures Valid() && Still(old(w), w) && old(trace) <= trace
      ensures trouble == (old(trouble) || r != Patched) && old(trace) <= trace
      ensures r == Patched ==> |old(trace)| < |trace| && trace[|trace| - 1] == SetLeave(c.cluster, member.name, leave, purpose)
    {
      ghost var before := w;
      Interfere();
      AskableStays(before, w, kcp, target, scope, Leaving(c.cluster, member, leave, purpose));
      r := LeaveNow(c, member, leave, purpose);
      Note(r != Patched);
    }

    /** The patch, when it gets there. What the server then has, and answers with, is the object that
        was inspected, with nothing else changed. */
    method LeaveNow(c: Client, member: EtcdMember, leave: bool, purpose: Purpose) returns (r: PatchResult)
      requires Valid() && Leaving(c.cluster, member, leave, purpose) in Askable(w, kcp, target, scope)
      modifies `trace, `w, `worlds
      ensures Valid() && Still(old(w), w) && old(trace) <= trace
      ensures r == Patched ==> trace == old(trace) + [SetLeave(c.cluster, member.name, leave, purpose)]
      ensures r == Patched ==> Serves(w, c.cluster, member.(leave := leave, rv := w.step))
    {
      var applied: bool := *;
      r := *;
      var members := if c.cluster in w.clusters then w.clusters[c.cluster].members else map[];
      if member.name !in members || members[member.name].rv != member.rv {
        r := if r == PatchFailed then PatchFailed else Conflict;
      } else if r == Patched || applied {
        LeaveAllowed(Story(), Leaving(c.cluster, member, leave, purpose));
        Do(SetLeave(c.cluster, member.name, leave, purpose));
      }
    }

    /** ensureLeaveRequested with force: the sentinel over whatever stood there. */
    method ForceRequest(c: Client, node: string) returns (ok: bool)
      requires Valid() && OnPin(w, kcp.pin, c.cluster)
      requires InScope(HaWorld.ForceRequest(c.cluster, node, target.name), scope)
      requires node == LeaveNodeName(target) && target.requestedAt.None? && (target.nodeRef.Some? || IsLabel(target.hostname))
      modifies `trace, `w, `worlds, `trouble
      ensures Valid() && Later(old(w), w) && old(trace) <= trace
      ensures trouble == (old(trouble) || !ok)
      ensures ok ==> |old(trace)| < |trace| && trace[|trace| - 1] == HaWorld.ForceRequest(c.cluster, node, target.name)
      ensures ok ==> target.name in w.forced && w.forced[target.name] == Force(c.cluster, node, w.step)
    {
      Interfere();
      ok := ForceNow(c, node);
      Note(!ok);
    }

    method ForceNow(c: Client, node: string) returns (ok: bool)
      requires Valid() && OnPin(w, kcp.pin, c.cluster)
      requires InScope(HaWorld.ForceRequest(c.cluster, node, target.name), scope)
      requires node == LeaveNodeName(target) && target.requestedAt.None? && (target.nodeRef.Some? || IsLabel(target.hostname))
      modifies `trace, `w, `worlds
      ensures Valid() && Later(old(w), w) && old(trace) <= trace
      ensures ok ==> trace == old(trace) + [HaWorld.ForceRequest(c.cluster, node, target.name)]
      ensures ok ==> target.name in w.forced && w.forced[target.name] == Force(c.cluster, node, w.step)
    {
      ok := *;
      var applied: bool := *;
      if c.cluster !in w.clusters {
        ok := false;
      } else if ok || applied {
        ForceAllowed(Story(), c.cluster, node);
        Do(HaWorld.ForceRequest(c.cluster, node, target.name));
      }
    }

    /** ensureLeaveRequested without force: an ack stays. */
    method KeepRequest(c: Client, node: string) returns (ok: bool)
      requires Valid() && OnPin(w, kcp.pin, c.cluster)
      requires InScope(HaWorld.KeepRequest(c.cluster, node), scope)
      modifies `trace, `w, `worlds, `trouble
      ensures Valid() && Still(old(w), w) && old(trace) <= trace
      ensures trouble == (old(trouble) || !ok)
      ensures ok ==> trace != [] && trace[|trace| - 1] == HaWorld.KeepRequest(c.cluster, node)
      ensures ok ==> Asked(w, c.cluster, node)
    {
      Interfere();
      ok := KeepNow(c, node);
      Note(!ok);
    }

    method KeepNow(c: Client, node: string) returns (ok: bool)
      requires Valid() && OnPin(w, kcp.pin, c.cluster)
      requires InScope(HaWorld.KeepRequest(c.cluster, node), scope)
      modifies `trace, `w, `worlds
      ensures Valid() && Still(old(w), w) && old(trace) <= trace
      ensures ok ==> trace == old(trace) + [HaWorld.KeepRequest(c.cluster, node)] && Asked(w, c.cluster, node)
    {
      ok := *;
      var applied: bool := *;
      if c.cluster !in w.clusters {
        ok := false;
      } else if ok || applied {
        KeepAllowed(Story(), c.cluster, node);
        Do(HaWorld.KeepRequest(c.cluster, node));
      }
    }

    /** annotateOnce: one patch of the annotations the snapshot lacks. It fails when the Machine
        is gone. */
    method PatchMachine(e: Event) returns (ok: bool)
      requires Valid() && e in Stampable(w, target, scope)
      modifies `trace, `w, `worlds, `target, `trouble
      ensures Valid() && Still(old(w), w) && old(trace) <= trace
      ensures trouble == (old(trouble) || !ok)
      ensures target == if ok then Stamped(old(target), e) else old(target)
      ensures ok ==> trace != [] && trace[|trace| - 1] == e
    {
      ghost var before := w;
      Interfere();
      StampableStays(before, w, target, scope, e);
      ok := StampNow(e);
      Note(!ok);
    }

    /** The patch, when it gets there. */
    method StampNow(e: Event) returns (ok: bool)
      requires Valid() && e in Stampable(w, target, scope)
      modifies `trace, `w, `worlds, `target
      ensures Valid() && Still(old(w), w) && old(trace) <= trace
      ensures target == if ok then Stamped(old(target), e) else old(target)
      ensures ok ==> trace == old(trace) + [e]
    {
      ok := *;
      var applied: bool := *;
      if target.name !in w.machines {
        ok := false;
      } else if ok || applied {
        StampAllowed(Story(), e);
        Do(e);
        if ok {
          Take(Stamped(target, e));
        }
      }
    }

    /** The stamp of the first request. */
    method StampRequest() returns (ok: bool)
      requires Valid() && target.requestedAt.None? && target.name in w.forced
      requires scope.LeaveOf? && !scope.leave.requested && scope.leave.machine == target.name
      modifies `trace, `w, `worlds, `target, `trouble
      ensures Valid() && Still(old(w), w) && trouble == (old(trouble) || !ok) && old(trace) <= trace
      ensures if ok then target.requestedAt.Some? && target.name == old(target).name else target == old(target)
    {
      var now := Now();
      Interfere();
      ok := RequestNow(At(now));
      Note(!ok);
    }

    /** The patch, when it gets there; the snapshot is what the server answers. */
    method RequestNow(t: Stamp) returns (ok: bool)
      requires Valid() && target.name in w.forced && Timely(t, w) && InScope(StampRequested(target.name, t), scope)
      modifies `trace, `w, `worlds, `target
      ensures Valid() && Still(old(w), w) && old(trace) <= trace
      ensures ok ==> trace == old(trace) + [StampRequested(old(target).name, t)]
      ensures if ok then target.requestedAt.Some? && target.name == old(target).name else target == old(target)
    {
      ok := *;
      var applied: bool := *;
      if target.name !in w.machines {
        ok := false;
      } else if ok || applied {
        RequestAllowed(Story(), t);
        Do(StampRequested(target.name, t));
        if ok {
          Take(w.machines[target.name]);
        }
      }
    }

    method StampUnreachableSince() returns (ok: bool)
      requires Valid() && target.unreachableSince.None?
      requires scope.LeaveOf? && !scope.leave.requested && scope.leave.machine == target.name
      modifies `trace, `w, `worlds, `target, `trouble
      ensures Valid() && Still(old(w), w) && trouble == (old(trouble) || !ok) && old(trace) <= trace
      ensures target == old(target).(unreachableSince := target.unreachableSince)
      ensures if ok then target.unreachableSince.Some? else target.unreachableSince.None?
    {
      var now := Now();
      ok := PatchMachine(StampUnreachable(target.name, At(now)));
    }

    /** The start of the delegation, if asked for, and the member's ID, if given, in one patch. */
    method StampDelegate(start: bool, id: Option<string>) returns (ok: bool, at: Option<Stamp>)
      requires Valid() && (start ==> target.delegatedAt.None?) && (id.Some? ==> target.memberID.None?)
      requires scope.LeaveOf? && Judges(scope.leave) && scope.leave.machine == target.name && (start ==> scope.leave.requested)
      modifies `trace, `w, `worlds, `target, `trouble
      ensures Valid() && Still(old(w), w) && trouble == (old(trouble) || !ok) && old(trace) <= trace
      ensures target == if ok then Delegated(old(target), at, id) else old(target)
      ensures at.Some? <==> start
    {
      var now := Now();
      at := if start then Some(At(now)) else None;
      DelegateStampable(w, target, scope, at, id);
      ok := PatchMachine(Delegate(target.name, at, id));
    }

    /** The patch, when it gets there. */
    method DropNow(why: Release) returns (ok: bool)
      requires Valid() && why in Droppable(w, target, kcp, scope)
      modifies `trace, `w, `worlds, `target
      ensures Valid() && Still(old(w), w) && old(trace) <= trace
      ensures ok ==> trace == old(trace) + [DropHook(target.name, why)]
      ensures target == old(target).(hook := old(target).hook && !ok)
    {
      ok := *;
      var applied: bool := *;
      if target.name !in w.machines {
        ok := false;
      } else if ok || applied {
        DropAllowed(Story(), why);
        Do(DropHook(target.name, why));
        if ok {
          Take(target.(hook := target.hook && !ok));
        }
      }
    }

    /** The patch that drops the hook. */
    method PatchHook(why: Release) returns (ok: bool)
      requires Valid() && why in Droppable(w, target, kcp, scope)
      modifies `trace, `w, `worlds, `target, `trouble
      ensures Valid() && Still(old(w), w) && old(trace) <= trace
      ensures trouble == (old(trouble) || !ok)
      ensures target == old(target).(hook := old(target).hook && !ok)
      ensures ok ==> trace != [] && trace[|trace| - 1] == DropHook(target.name, why)
    {
      ghost var before := w;
      Interfere();
      DroppableStays(before, w, target, kcp, scope, why);
      ok := DropNow(why);
      Note(!ok);
    }
  }

  /** What happened tells the worlds: a run that went on has been where it was. */
  lemma {:induction false} SamePast(was: History, h: History, i: nat)
    requires Held(was) && Held(h) && was.start == h.start && was.trace <= h.trace && i <= |was.trace|
    ensures i < |was.worlds| && i < |h.worlds| && h.worlds[i] == was.worlds[i]
    ensures i == |was.trace| ==> h.worlds[i] == was.end
  {
    Unfold(was);
    Unfold(h);
    if i > 0 {
      SamePast(was, h, i - 1);
      StepAt(was.worlds, was.trace, i - 1);
      StepAt(h.worlds, h.trace, i - 1);
    }
  }

  /** A pass begins once. */
  lemma OnePass(h: History)
    requires Held(h)
    ensures |h.base| < |h.trace| && h.trace[..|h.base|] == h.base && h.trace[|h.base|] == NewPass
    ensures forall i | |h.base| < i < |h.trace| :: h.trace[i] != NewPass
  {
    Unfold(h);
    forall i | |h.base| < i < |h.trace|
      ensures h.trace[i] != NewPass
    {
      assert Covers(h.scope, h.trace, i);
    }
  }

  /** Whatever the pass did rests on what it read itself. */
  ghost predicate FoundedPass(h: History) {
    && |h.worlds| == |h.trace| + 1 && |h.base| < |h.trace|
    && forall i | |h.base| < i < |h.trace| :: FoundedSince(h.worlds, h.trace, |h.base|, i)
  }

  lemma ThisPass(h: History)
    requires Held(h)
    ensures FoundedPass(h)
  {
    Unfold(h);
    PassFounded(h.worlds, h.trace, |h.base|);
  }
}
