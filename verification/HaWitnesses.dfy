/**
 Runs in which a promise of the HA etcd-membership protocol fails, each of them one the
 passes can take, and with them the exact conditions under which the promises hold.
 */
module HaWitnesses {
  import opened Wrappers
  import opened EtcdTypes
  import opened OrphanMatching
  import opened HaWorld
  import opened HaRuns
  import opened HaApi

  /** The run goes on with one more event. */
  lemma GoesOn(worlds: seq<World>, trace: seq<Event>, e: Event) returns (worlds': seq<World>, trace': seq<Event>)
    requires LegalRun(worlds, trace) && Legal(worlds[|trace|], e)
    ensures LegalRun(worlds', trace') && trace' == trace + [e] && worlds' == worlds + [Apply(worlds[|trace|], e)]
  {
    RunExtended(worlds, trace, e);
    worlds', trace' := worlds + [Apply(worlds[|trace|], e)], trace + [e];
  }

  /** A pass begins and reads all of that. */
  lemma {:induction false} Reads(worlds: seq<World>, trace: seq<Event>, facts: seq<Fact>) returns (worlds': seq<World>, trace': seq<Event>)
    requires LegalRun(worlds, trace) && forall f | f in facts :: Holds(worlds[|trace|], f)
    ensures LegalRun(worlds', trace') && |trace'| == |trace| + 1 + |facts| && trace <= trace' && worlds <= worlds'
    ensures worlds'[|trace'|] == Apply(worlds[|trace|], NewPass).(seen := set f | f in facts)
    ensures trace'[|trace|] == NewPass && forall k | |trace| < k < |trace'| :: trace'[k].Saw?
  {
    if facts == [] {
      worlds', trace' := GoesOn(worlds, trace, NewPass);
    } else {
      var init, f := facts[..|facts| - 1], facts[|facts| - 1];
      assert facts == init + [f];
      worlds', trace' := Reads(worlds, trace, init);
      HoldsLater(worlds[|trace|], worlds'[|trace'|], f);
      worlds', trace' := GoesOn(worlds', trace', Saw(f));
      assert worlds'[|trace'|].seen == set f | f in facts;
    }
  }

  lemma HoldsLater(w: World, w': World, f: Fact)
    requires Holds(w, f) && w'.clusters == w.clusters && w'.reports == w.reports && w.step <= w'.step
    ensures Holds(w', f)
  {
  }

  /** The events from i to before j are writes of one pass in that scope. */
  ghost predicate PassOf(trace: seq<Event>, i: nat, j: nat, s: Scope) {
    i < j <= |trace| && trace[i] == NewPass && forall k | i < k < j :: InScope(trace[k], s)
  }

  lemma PassRemains(trace: seq<Event>, trace': seq<Event>, i: nat, j: nat, s: Scope)
    requires PassOf(trace, i, j, s) && trace <= trace'
    ensures PassOf(trace', i, j, s)
  {
  }

  /** The pass that began at i goes on with one more event of its scope, to world w. */
  lemma PassGoesOn(worlds: seq<World>, trace: seq<Event>, i: nat, e: Event, s: Scope, w: World)
    returns (worlds': seq<World>, trace': seq<Event>)
    requires LegalRun(worlds, trace) && Legal(worlds[|trace|], e) && Apply(worlds[|trace|], e) == w
    requires PassOf(trace, i, |trace|, s) && InScope(e, s)
    ensures LegalRun(worlds', trace') && worlds' == worlds + [w] && trace' == trace + [e] && PassOf(trace', i, |trace'|, s)
  {
    worlds', trace' := GoesOn(worlds, trace, e);
  }

  // ---- an old ack ----

  /** A leave asked for under one node name in one cluster, and an ack under a name in a cluster. */
  datatype Case = Case(asked: string, askedName: string, acked: string, ackedName: string, machine: string)

  predicate Same(a: Case) {
    a.asked == a.acked && a.askedName == a.ackedName
  }

  /** The request and the ack can be of the same Machine and yet not of one name in one cluster: the
      name is the same, or the Machine rendered the first and registered under the second. */
  predicate Apart(a: Case) {
    !Same(a) && (a.askedName == a.ackedName || IsLabel(a.askedName))
  }

  const ACK := Entry(Left, 1)

  function TheMember(a: Case): EtcdMember {
    EtcdMember(a.askedName, None, None, false, false, 1)
  }

  /** The Machine has no Node yet if it will register under another name than it rendered. */
  function TheMachine(a: Case): Machine {
    var node := if a.askedName != a.ackedName then None else Some(a.askedName);
    Machine(a.machine, node, a.askedName, [], "", true, true, true, None, None, None, None)
  }

  function UIDs(a: Case): set<string> {
    {a.asked, a.acked}
  }

  function TheClusters(a: Case, requested: bool): map<string, Cluster> {
    map u | u in UIDs(a) ::
      Cluster(true, if u == a.asked then map[a.askedName := TheMember(a)] else map[],
        (if u == a.acked then map[a.ackedName := ACK] else map[]) +
        (if requested && u == a.asked then map[a.askedName := Entry(LeaveRequested, 2)] else map[]))
  }

  /** An ack of an earlier node stands under the name and in the cluster of the ack. */
  function Before(a: Case): World {
    World(
      Kcp(0, a.asked, None, None, true, false, "", true), map[a.machine := TheMachine(a)], TheClusters(a, false), map[],
      0, 1, 0, map[], {a.asked}, {a.machine},
      if a.askedName != a.ackedName then map[] else map[a.machine := a.askedName],
      if a.askedName != a.ackedName then {} else {a.machine}, {}, {}, {})
  }

  /** The leave is requested and stamped. */
  function AfterRequest(a: Case): World {
    Before(a).(
      machines := map[a.machine := TheMachine(a).(requestedAt := Some(At(0)))], clusters := TheClusters(a, true), step := 3,
      forced := map[a.machine := Force(a.asked, a.askedName, 2)], notes := {RequestedNote(a.machine, At(0))})
  }

  /** The Machine has its Node, and an operator pinned the cluster of the ack. */
  function Moved(a: Case): World {
    AfterRequest(a).(
      kcp := Before(a).kcp.(rv := 5, pin := a.acked), pins := {a.asked, a.acked}, step := 5, nodes := map[a.machine := a.ackedName],
      machines := map[a.machine := TheMachine(a).(requestedAt := Some(At(0)), nodeRef := Some(a.ackedName))])
  }

  lemma BeforeStarts(a: Case)
    requires a.asked != "" && Apart(a)
    ensures Starts(Before(a)) && LeaveNodeName(TheMachine(a)) == a.askedName
  {
    var w := Before(a);
    if a.askedName != a.ackedName {
      LabelIsLower(a.askedName);
    }
    forall c | c in w.clusters
      ensures RevisionsUpTo(w.clusters[c], w.step)
    {
    }
  }

  function FirstFacts(a: Case): set<Fact> {
    {LeavesAre(a.asked, TheClusters(a, false)[a.asked].leaves), Answered(a.asked), MemberIs(a.asked, TheMember(a))}
  }

  lemma FirstReads(a: Case) returns (worlds: seq<World>, trace: seq<Event>)
    requires a.asked != "" && Apart(a)
    ensures LegalRun(worlds, trace) && worlds[0] == Before(a) && worlds[|trace|] == Before(a).(seen := FirstFacts(a))
    ensures trace != [] && trace[0] == NewPass && forall k | 0 < k < |trace| :: trace[k].Saw?
  {
    BeforeStarts(a);
    var facts := [LeavesAre(a.asked, TheClusters(a, false)[a.asked].leaves), Answered(a.asked), MemberIs(a.asked, TheMember(a))];
    worlds, trace := Reads([Before(a)], [], facts);
    assert (set f | f in facts) == FirstFacts(a);
  }

  function AfterForce(a: Case): World {
    Before(a).(clusters := TheClusters(a, true), step := 2, forced := map[a.machine := Force(a.asked, a.askedName, 2)])
  }

  function FirstScope(a: Case): Scope {
    LeaveOf(CaseOf(TheMachine(a), Before(a).kcp, false))
  }

  lemma ForceIsLegal(a: Case)
    requires a.asked != "" && Apart(a)
    ensures var e := ForceRequest(a.asked, a.askedName, a.machine);
            Legal(Before(a).(seen := FirstFacts(a)), e) && InScope(e, FirstScope(a))
  {
    BeforeStarts(a);
  }

  lemma ForcedClusters(a: Case)
    requires Apart(a)
    ensures var cl := TheClusters(a, false)[a.asked];
            TheClusters(a, false)[a.asked := cl.(leaves := cl.leaves[a.askedName := Entry(LeaveRequested, 2)])] == TheClusters(a, true)
  {
    var cl := TheClusters(a, false)[a.asked];
    assert cl.leaves[a.askedName := Entry(LeaveRequested, 2)] == TheClusters(a, true)[a.asked].leaves;
  }

  lemma ForceApplies(a: Case)
    requires a.asked != "" && Apart(a)
    ensures var w, e := Before(a).(seen := FirstFacts(a)), ForceRequest(a.asked, a.askedName, a.machine);
            Legal(w, e) && Apply(w, e) == AfterForce(a) && InScope(e, FirstScope(a))
  {
    ForceIsLegal(a);
    ForcedClusters(a);
  }

  lemma StampApplies(a: Case)
    ensures var w, e := AfterForce(a), StampRequested(a.machine, At(0));
            Legal(w, e) && Apply(w, e) == AfterRequest(a) && InScope(e, FirstScope(a))
  {
    var w, e := AfterForce(a), StampRequested(a.machine, At(0));
    assert Apply(w, e).machines == AfterRequest(a).machines;
    assert Apply(w, e).notes == AfterRequest(a).notes;
  }

  lemma FirstForced(a: Case) returns (worlds: seq<World>, trace: seq<Event>, p: nat)
    requires a.asked != "" && Apart(a)
    ensures LegalRun(worlds, trace) && worlds[0] == Before(a) && worlds[|trace|] == AfterForce(a)
    ensures PassOf(trace, 0, |trace|, FirstScope(a)) && 0 < p < |trace| && trace[p] == ForceRequest(a.asked, a.askedName, a.machine)
  {
    BeforeStarts(a);
    worlds, trace := FirstReads(a);
    p := |trace|;
    assert PassOf(trace, 0, |trace|, FirstScope(a));
    ForceApplies(a);
    worlds, trace := PassGoesOn(worlds, trace, 0, ForceRequest(a.asked, a.askedName, a.machine), FirstScope(a), AfterForce(a));
  }

  /** The first pass reads, verifies, requests and stamps. */
  lemma FirstPass(a: Case) returns (worlds: seq<World>, trace: seq<Event>, p: nat)
    requires a.asked != "" && Apart(a)
    ensures LegalRun(worlds, trace) && worlds[0] == Before(a) && worlds[|trace|] == AfterRequest(a)
    ensures PassOf(trace, 0, |trace|, FirstScope(a)) && 0 < p < |trace| && trace[p] == ForceRequest(a.asked, a.askedName, a.machine)
  {
    worlds, trace, p := FirstForced(a);
    StampApplies(a);
    worlds, trace := PassGoesOn(worlds, trace, 0, StampRequested(a.machine, At(0)), FirstScope(a), AfterRequest(a));
  }

  lemma MoveKeepsClusters(a: Case, c: string)
    requires c in TheClusters(a, true)
    ensures var cl := TheClusters(a, true)[c]; MembersMove(cl.members, cl.members, 3, 5) && EntriesMove(cl.leaves, cl.leaves, 3, 5)
  {
  }

  lemma MoveIsOthers(a: Case)
    requires a.asked != "" && a.acked != ""
    ensures Rely(AfterRequest(a), Moved(a))
  {
    var w, w' := AfterRequest(a), Moved(a);
    assert MachinesMove(w, w');
    assert NodesMove(w, w');
    forall c | c in w.clusters
      ensures MembersMove(w.clusters[c].members, w.clusters[c].members, w.step, w'.step)
      ensures EntriesMove(w.clusters[c].leaves, w.clusters[c].leaves, w.step, w'.step)
    {
      MoveKeepsClusters(a, c);
    }
  }

  function SecondFacts(a: Case): seq<Fact> {
    [LeavesAre(a.acked, TheClusters(a, true)[a.acked].leaves), Answered(a.acked)]
  }

  lemma SecondHolds(a: Case)
    requires a.acked != ""
    ensures forall f | f in SecondFacts(a) :: Holds(Moved(a), f)
  {
  }

  lemma SecondReads(a: Case, worlds: seq<World>, trace: seq<Event>) returns (worlds': seq<World>, trace': seq<Event>)
    requires LegalRun(worlds, trace) && worlds[|trace|] == Moved(a) && a.acked != "" && Apart(a)
    ensures LegalRun(worlds', trace') && |trace| < |trace'| && trace <= trace' && worlds <= worlds'
    ensures worlds'[|trace'|] == Moved(a).(seen := set f | f in SecondFacts(a))
    ensures trace'[|trace|] == NewPass && forall k | |trace| < k < |trace'| :: trace'[k].Saw?
  {
    SecondHolds(a);
    worlds', trace' := Reads(worlds, trace, SecondFacts(a));
  }

  /** The hook of Machine k is dropped at event i on an ack of that case. */
  ghost predicate DropsOnAck(worlds: seq<World>, trace: seq<Event>, i: nat, a: Case, entry: Entry) {
    && LegalRun(worlds, trace) && i < |trace|
    && trace[i] == DropHook(a.machine, OnAck(a.acked, a.ackedName, entry))
    && a.machine in worlds[i].forced && worlds[i].forced[a.machine].cluster == a.asked && worlds[i].forced[a.machine].node == a.askedName
  }

  /** Event i is in a pass over the Machine as it is when the pass starts, as all of that pass is. */
  ghost predicate InLeavePass(worlds: seq<World>, trace: seq<Event>, p: nat, i: nat, k: string)
    requires |worlds| == |trace| + 1
  {
    p < i < |trace| && k in worlds[p].machines &&
    PassOf(trace, p, i + 1, LeaveOf(CaseOf(worlds[p].machines[k], worlds[p].kcp, false)))
  }

  function SecondScope(a: Case): Scope {
    LeaveOf(CaseOf(Moved(a).machines[a.machine], Moved(a).kcp, false))
  }

  lemma AckReleases(a: Case, w: World)
    requires w == Moved(a).(seen := set f | f in SecondFacts(a)) && Apart(a)
    ensures var e := DropHook(a.machine, OnAck(a.acked, a.ackedName, ACK)); Legal(w, e) && InScope(e, SecondScope(a))
  {
    assert SecondFacts(a)[0] in SecondFacts(a) && SecondFacts(a)[1] in SecondFacts(a);
    assert LeavesAre(a.acked, TheClusters(a, true)[a.acked].leaves) in w.seen && Answered(a.acked) in w.seen;
    assert ReadEntry(w.seen, a.acked, a.ackedName, ACK);
  }

  lemma PassStays(worlds: seq<World>, trace: seq<Event>, worlds': seq<World>, trace': seq<Event>, p: nat, i: nat, k: string)
    requires |worlds| == |trace| + 1 && |worlds'| == |trace'| + 1 && trace <= trace' && worlds <= worlds'
    requires InLeavePass(worlds, trace, p, i, k)
    ensures InLeavePass(worlds', trace', p, i, k)
  {
  }

  /** The second pass reads, verifies and drops the hook. */
  lemma SecondPass(a: Case, worlds: seq<World>, trace: seq<Event>) returns (worlds': seq<World>, trace': seq<Event>, i: nat)
    requires LegalRun(worlds, trace) && worlds[|trace|] == Moved(a) && a.asked != "" && a.acked != "" && Apart(a)
    ensures trace <= trace' && worlds <= worlds' && |trace| < i && DropsOnAck(worlds', trace', i, a, ACK)
    ensures worlds'[i].forced == Moved(a).forced && InLeavePass(worlds', trace', |trace|, i, a.machine)
  {
    worlds', trace' := SecondReads(a, worlds, trace);
    i := |trace'|;
    AckReleases(a, worlds'[i]);
    assert worlds'[|trace|] == Moved(a) && PassOf(trace', |trace|, i, SecondScope(a));
    var drop := DropHook(a.machine, OnAck(a.acked, a.ackedName, ACK));
    worlds', trace' := PassGoesOn(worlds', trace', |trace|, drop, SecondScope(a), Apply(worlds'[i], drop));
  }

  /** In every such case there is a run in which an ack older than the request drops the hook: a
      Machine that rendered one name and registers under another, where an earlier node left its ack,
      or one whose cluster was pinned anew. The request, at p, and the drop, at i, are each made in a
      pass over that Machine. */
  lemma OldAckDrops(a: Case) returns (worlds: seq<World>, trace: seq<Event>, p: nat, q: nat, i: nat)
    requires a.asked != "" && a.acked != "" && Apart(a)
    ensures DropsOnAck(worlds, trace, i, a, ACK) && ACK.rv <= worlds[i].forced[a.machine].at
    ensures InLeavePass(worlds, trace, 0, p, a.machine) && trace[p] == ForceRequest(a.asked, a.askedName, a.machine)
    ensures p < q && InLeavePass(worlds, trace, q, i, a.machine)
  {
    var worlds0, trace0, p0 := FirstPass(a);
    p := p0;
    assert InLeavePass(worlds0, trace0, 0, p, a.machine);
    MoveIsOthers(a);
    var worlds1, trace1 := GoesOn(worlds0, trace0, Env(Moved(a)));
    q := |trace1|;
    worlds, trace, i := SecondPass(a, worlds1, trace1);
    PassStays(worlds0, trace0, worlds, trace, 0, p, a.machine);
  }

  /** A Machine that had a Node when the leave was requested has the same when the ack is read. */
  lemma NodeNamesAgree(worlds: seq<World>, trace: seq<Event>, i: nat, a: Case, entry: Entry)
    requires DropsOnAck(worlds, trace, i, a, entry)
    ensures a.askedName == a.ackedName || IsLabel(a.askedName)
  {
    LegalAt(worlds, trace, i);
    assert NodeOrLabel(worlds[i], a.machine, a.askedName);
    assert NodeOrLate(worlds[i], a.machine, a.ackedName);
  }

  /** Exactly when an ack that drops a hook is sure to be younger than the request: unless the two
      can be of the same Machine and yet not of one name in one cluster. */
  lemma AckYoungerIff(a: Case)
    requires a.asked != "" && a.acked != ""
    ensures (forall worlds: seq<World>, trace: seq<Event>, i: nat, entry: Entry ::
              DropsOnAck(worlds, trace, i, a, entry) ==> entry.rv > worlds[i].forced[a.machine].at) <==>
            !Apart(a)
  {
    if Apart(a) {
      var worlds, trace, p, q, i := OldAckDrops(a);
    } else {
      forall worlds: seq<World>, trace: seq<Event>, i: nat, entry: Entry | DropsOnAck(worlds, trace, i, a, entry)
        ensures entry.rv > worlds[i].forced[a.machine].at
      {
        NodeNamesAgree(worlds, trace, i, a, entry);
        AckYoungerThanRequest(worlds, trace, i);
      }
    }
  }

  // ---- a record that ended ----

  function Node(name: string, node: string): Machine {
    Machine(name, Some(node), node, [], "v", false, false, false, None, None, None, None)
  }

  function Member(name: string, leave: bool, rv: nat): EtcdMember {
    EtcdMember(name, Some(name), None, false, leave, rv)
  }

  const NODES := [Node("1", "a"), Node("2", "b")]
  const UID := "uid"
  const ENDED := Record("z", "z", 0)
  const NEXT := Record("o", "o", 700)
  const VOTERS: Reports := map["a" := MemberStatus(true, true), "b" := MemberStatus(true, true)]

  /** Two nodes and two orphans; `asked` once spec.leave is set on the later of them. */
  function Joined(asked: bool): seq<EtcdMember> {
    [Member("a", false, 1), Member("b", false, 1), Member("o", false, 1), if asked then Member("z", true, 3) else Member("z", false, 1)]
  }

  function ByName(asked: bool): map<string, EtcdMember> {
    map["a" := Joined(asked)[0], "b" := Joined(asked)[1], "o" := Joined(asked)[2], "z" := Joined(asked)[3]]
  }

  function Judging(asked: bool): Check {
    Check(UID, NODES, Joined(asked), VOTERS, 2)
  }

  /** The removal of z is on record, past its cap, and spec.leave was never written. */
  const RECORDED := World(
    Kcp(0, UID, None, Some(ENDED), true, false, "v", true),
    map["1" := NODES[0], "2" := NODES[1]], map[UID := Cluster(true, ByName(false), map[])], VOTERS,
    700, 1, 700, map[], {UID}, {"1", "2"}, map["1" := "a", "2" := "b"], {"1", "2"}, {ENDED}, {}, {})

  /** The record is ended. */
  const CLEARED := RECORDED.(kcp := RECORDED.kcp.(rv := 2, record := None), step := 2)

  /** z is asked to leave all the same. */
  const LEFT := CLEARED.(clusters := map[UID := Cluster(true, ByName(true), map[])], step := 3)

  lemma TheirsAreNobodys(member: EtcdMember)
    requires member.name == "o" || member.name == "z"
    requires member.peer.None?
    ensures Unaccounted(NODES, member)
  {
    assert ToLower("a")[0] == 'a' && ToLower("b")[0] == 'b';
    assert forall m | m in NODES :: m == NODES[0] || m == NODES[1];
  }

  lemma NodesAreSteady(asked: bool)
    ensures Steady(NODES, Joined(asked), VOTERS)
  {
    assert Joined(asked)[0] in Joined(asked) && Joined(asked)[1] in Joined(asked);
    assert forall m | m in NODES :: m == NODES[0] || m == NODES[1];
  }

  lemma JudgedSafe(asked: bool, member: EtcdMember)
    requires member in Joined(asked) && (member.name == "o" || member.name == "z")
    ensures SafeToRemove(Judging(asked), member)
  {
    TheirsAreNobodys(member);
    NodesAreSteady(asked);
    SteadyBlockedIff(NODES, Joined(asked), member, VOTERS);
  }

  function StaleFacts(): set<Fact> {
    {Answered(UID), MemberIs(UID, Joined(false)[3]), MembersAre(UID, Joined(false)), ReportsAre(VOTERS)}
  }

  lemma ListsAll(asked: bool)
    ensures Lists(Joined(asked), ByName(asked))
  {
    var list := Joined(asked);
    assert list[0] in list && list[1] in list && list[2] in list && list[3] in list;
    assert MemberNames(list) == {"a", "b", "o", "z"};
  }

  lemma StaleHolds(w: World)
    requires w.clusters == CLEARED.clusters && w.reports == VOTERS
    ensures forall f | f in StaleFacts() :: Holds(w, f)
  {
    ListsAll(false);
  }

  lemma RecordedStarts()
    ensures Starts(RECORDED) && Apply(RECORDED, NewPass) == RECORDED
  {
    assert RevisionsUpTo(RECORDED.clusters[UID], 1);
  }

  lemma ClearApplies()
    ensures Legal(RECORDED, ClearRecord) && Apply(RECORDED, ClearRecord) == CLEARED
  {
  }

  /** A pass past the cap ends the record. */
  lemma RecordEnds() returns (worlds: seq<World>, trace: seq<Event>)
    ensures LegalRun(worlds, trace) && |trace| == 2 && worlds[0] == RECORDED && worlds[2] == CLEARED
    ensures PassOf(trace, 0, 2, OrphanFollowed) && trace[1] == ClearRecord
  {
    RecordedStarts();
    worlds, trace := Reads([RECORDED], [], []);
    ClearApplies();
    worlds, trace := GoesOn(worlds, trace, ClearRecord);
  }

  lemma StaleReads(worlds: seq<World>, trace: seq<Event>) returns (worlds': seq<World>, trace': seq<Event>)
    requires LegalRun(worlds, trace) && worlds[|trace|] == CLEARED
    ensures LegalRun(worlds', trace') && |trace'| == |trace| + 5 && worlds <= worlds' && trace <= trace'
    ensures worlds'[|trace'|] == CLEARED.(seen := StaleFacts())
    ensures PassOf(trace', |trace|, |trace'|, OrphanFollowed)
  {
    StaleHolds(CLEARED);
    var facts := [Answered(UID), MemberIs(UID, Joined(false)[3]), MembersAre(UID, Joined(false)), ReportsAre(VOTERS)];
    assert (set f | f in facts) == StaleFacts();
    worlds', trace' := Reads(worlds, trace, facts);
  }

  const ASK_ENDED := SetLeave(UID, "z", true, ForOrphan(Judging(false), ENDED))
  const RECORD_NEXT := SetRecord(NEXT, Judging(true))
  const ASK_NEXT := SetLeave(UID, "o", true, ForOrphan(Judging(true), NEXT))

  lemma JudgedThere(w: World, asked: bool)
    requires UID in w.pins && {Answered(UID), MembersAre(UID, Joined(asked)), ReportsAre(VOTERS)} <= w.seen
    ensures Judged(w, Judging(asked))
  {
    assert Answered(UID) in {Answered(UID), MembersAre(UID, Joined(asked)), ReportsAre(VOTERS)};
    assert MembersAre(UID, Joined(asked)) in w.seen;
    assert ReadJoined(w.seen, UID, Joined(asked));
  }

  /** It asks z to leave, although nothing is on record any more. */
  lemma AsksEnded()
    ensures var w := CLEARED.(seen := StaleFacts());
            Legal(w, ASK_ENDED) && Apply(w, ASK_ENDED) == LEFT.(seen := StaleFacts()) && InScope(ASK_ENDED, OrphanFollowed)
  {
    EndedIsLegal();
    EndedApplies();
  }

  lemma EndedApplies()
    ensures Apply(CLEARED.(seen := StaleFacts()), ASK_ENDED) == LEFT.(seen := StaleFacts())
  {
    AskedByName();
    assert CLEARED.clusters[UID := Cluster(true, ByName(true), map[])] == LEFT.clusters;
  }

  lemma EndedIsLegal()
    ensures Legal(CLEARED.(seen := StaleFacts()), ASK_ENDED)
  {
    JudgedThere(CLEARED.(seen := StaleFacts()), false);
    JudgedSafe(false, Joined(false)[3]);
    assert OnRecord(Some(ENDED), Joined(false)[3]);
  }

  lemma AskedByName()
    ensures ByName(false)["z" := Member("z", true, 3)] == ByName(true)
  {
  }

  const FRESH_FACTS: set<Fact> := {Answered(UID), MembersAre(UID, Joined(true)), ReportsAre(VOTERS)}

  lemma FreshReads(worlds: seq<World>, trace: seq<Event>) returns (worlds': seq<World>, trace': seq<Event>)
    requires LegalRun(worlds, trace) && worlds[|trace|] == LEFT.(seen := StaleFacts())
    ensures LegalRun(worlds', trace') && |trace'| == |trace| + 4 && worlds <= worlds' && trace <= trace'
    ensures worlds'[|trace'|] == LEFT.(seen := FRESH_FACTS)
    ensures PassOf(trace', |trace|, |trace'|, OrphanRemoval)
  {
    ListsAll(true);
    var facts := [Answered(UID), MembersAre(UID, Joined(true)), ReportsAre(VOTERS)];
    assert (set f | f in facts) == FRESH_FACTS;
    worlds', trace' := Reads(worlds, trace, facts);
  }

  /** A pass over the KairosControlPlane as it is finds another orphan first by name. */
  const NEXT_RECORDED := LEFT.(kcp := LEFT.kcp.(rv := 4, record := Some(NEXT)), step := 4, records := {ENDED, NEXT}, seen := FRESH_FACTS)

  lemma NextIsOk()
    ensures KcpWriteOk(LEFT.kcp, RECORD_NEXT)
  {
    JudgedSafe(true, Joined(true)[2]);
    assert OnRecord(Some(NEXT), Joined(true)[2]) && SafeToRemove(Judging(true), Joined(true)[2]);
    assert IsAlnum('o');
    assert IsSubdomain("o");
  }

  lemma RecordsNext()
    ensures var w := LEFT.(seen := FRESH_FACTS);
            Legal(w, RECORD_NEXT) && Apply(w, RECORD_NEXT) == NEXT_RECORDED && InScope(RECORD_NEXT, OrphanRemoval)
  {
    var w := LEFT.(seen := FRESH_FACTS);
    JudgedThere(w, true);
    NextIsOk();
    assert Basis(w, w.kcp.pin, RECORD_NEXT);
    assert Apply(w, RECORD_NEXT).records == NEXT_RECORDED.records;
  }

  lemma AsksNext()
    ensures Legal(NEXT_RECORDED, ASK_NEXT) && InScope(ASK_NEXT, OrphanRemoval)
  {
    JudgedThere(NEXT_RECORDED, true);
    JudgedSafe(true, Joined(true)[2]);
    assert OnRecord(Some(NEXT), Joined(true)[2]);
  }

  lemma EndedIsAsked() returns (worlds: seq<World>, trace: seq<Event>)
    ensures LegalRun(worlds, trace) && |trace| == 8 && worlds[8] == LEFT.(seen := StaleFacts())
    ensures worlds[0] == RECORDED && worlds[2] == CLEARED && worlds[7].kcp == CLEARED.kcp
    ensures PassOf(trace, 0, 2, OrphanFollowed) && PassOf(trace, 2, 8, OrphanFollowed)
    ensures trace[1] == ClearRecord && trace[7] == ASK_ENDED
  {
    var worlds0, trace0 := RecordEnds();
    var worlds1, trace1 := StaleReads(worlds0, trace0);
    AsksEnded();
    worlds, trace := PassGoesOn(worlds1, trace1, 2, ASK_ENDED, OrphanFollowed, LEFT.(seen := StaleFacts()));
    PassRemains(trace0, trace, 0, 2, OrphanFollowed);
  }

  lemma NextIsRecorded(worlds: seq<World>, trace: seq<Event>) returns (worlds': seq<World>, trace': seq<Event>)
    requires LegalRun(worlds, trace) && worlds[|trace|] == LEFT.(seen := StaleFacts())
    ensures LegalRun(worlds', trace') && |trace'| == |trace| + 5 && worlds <= worlds' && trace <= trace'
    ensures worlds'[|trace'|] == NEXT_RECORDED && trace'[|trace| + 4] == RECORD_NEXT
    ensures PassOf(trace', |trace|, |trace'|, OrphanRemoval)
  {
    var worlds1, trace1 := FreshReads(worlds, trace);
    RecordsNext();
    worlds', trace' := PassGoesOn(worlds1, trace1, |trace|, RECORD_NEXT, OrphanRemoval, NEXT_RECORDED);
  }

  lemma NextIsAsked(worlds: seq<World>, trace: seq<Event>) returns (worlds': seq<World>, trace': seq<Event>)
    requires LegalRun(worlds, trace) && worlds[|trace|] == LEFT.(seen := StaleFacts())
    ensures LegalRun(worlds', trace') && |trace'| == |trace| + 6 && worlds <= worlds' && trace <= trace'
    ensures PassOf(trace', |trace|, |trace'|, OrphanRemoval)
    ensures trace'[|trace| + 4] == RECORD_NEXT && trace'[|trace| + 5] == ASK_NEXT
    ensures forall k | |trace| <= k < |trace'| :: !trace'[k].ClearRecord?
  {
    var worlds2, trace2 := NextIsRecorded(worlds, trace);
    AsksNext();
    worlds', trace' := PassGoesOn(worlds2, trace2, |trace|, ASK_NEXT, OrphanRemoval, Apply(NEXT_RECORDED, ASK_NEXT));
    RemovalEndsNone(trace', |trace|, |trace'|);
  }

  lemma RemovalEndsNone(trace: seq<Event>, i: nat, j: nat)
    requires PassOf(trace, i, j, OrphanRemoval)
    ensures forall k | i <= k < j :: !trace[k].ClearRecord?
  {
    forall k | i <= k < j
      ensures !trace[k].ClearRecord?
    {
      assert k > i ==> InScope(trace[k], OrphanRemoval);
    }
  }

  /** A snapshot that is not current breaks both promises about the record. Its record ends without
      spec.leave ever written; the next pass still sees it, finds the removal safe, and writes
      spec.leave with nothing on record; and a pass that sees nothing on record then asks another
      member to leave, with no end of a record between the two. */
  lemma EndedRecordIsFollowed() returns (worlds: seq<World>, trace: seq<Event>)
    ensures LegalRun(worlds, trace) && |trace| == 14
    ensures PassOf(trace, 0, 2, OrphanFollowed) && trace[1] == ClearRecord
    ensures PassOf(trace, 2, 8, OrphanFollowed) && KcpView(worlds[0].kcp, worlds[2]) && OrphanLeave(trace[7])
    ensures worlds[0].kcp.record == Some(trace[7].purpose.record) && worlds[7].kcp.record.None?
    ensures PassOf(trace, 8, 14, OrphanRemoval) && OrphanLeave(trace[13])
    ensures NotEnded(trace, 7, 13) && trace[7].name != trace[13].name
  {
    var worlds0, trace0 := EndedIsAsked();
    worlds, trace := NextIsAsked(worlds0, trace0);
    PassRemains(trace0, trace, 0, 2, OrphanFollowed);
    PassRemains(trace0, trace, 2, 8, OrphanFollowed);
    assert trace[1] == trace0[1] && trace[7] == trace0[7] && worlds[0] == worlds0[0] && worlds[2] == worlds0[2] && worlds[7] == worlds0[7];
  }
}
