/**
 The membership part of one reconcile (reconcileMachines in
 internal/controllers/controlplane/kairoscontrolplane_controller.go): the identity gate, then
 the etcd leave of every departing Machine, then the orphan cleanup. And every run of such
 reconciles.
*/
module HaPass {
  import opened Wrappers
  import opened EtcdTypes
  import opened HaWorld
  import opened HaRuns
  import opened HaApi
  import opened HaIdentity
  import opened HaLeave
  import opened HaOrphans

  // ---- what may be read ----

  /** Whatever the cache still shows of the KairosControlPlane, however old, is a snapshot a pass may
      work on. */
  lemma PastKcpIsView(worlds: seq<World>, trace: seq<Event>, i: nat, j: nat)
    requires LegalRun(worlds, trace) && i <= j <= |trace|
    ensures KcpView(worlds[i].kcp, worlds[j])
  {
    InvAt(worlds, trace, i);
    HistoryGrows(worlds, trace, i, j);
    SameRevisionSameKcp(worlds, trace, i, j);
  }

  /** And so is whatever it still shows of a Machine, whoever annotated it since. */
  lemma PastMachineIsView(worlds: seq<World>, trace: seq<Event>, i: nat, j: nat, k: string)
    requires LegalRun(worlds, trace) && i <= j <= |trace| && k in worlds[i].machines
    ensures MachineView(worlds[i].machines[k], worlds[j])
  {
    InvAt(worlds, trace, i);
    HistoryGrows(worlds, trace, i, j);
  }

  /** The snapshots are worth what they should be. */
  predicate Views(machines: seq<Machine>, w: World) {
    forall m | m in machines :: MachineView(m, w)
  }

  /** A pass takes nothing from what the snapshots at hand are worth. */
  lemma ViewsStay(r: Reconciler, machines: seq<Machine>)
    requires r.Valid() && Views(machines, r.began)
    ensures Views(machines, r.w)
  {
    Unfold(r.Story());
    HistoryGrows(r.worlds, r.trace, |r.base|, |r.trace|);
    forall m | m in machines
      ensures MachineView(m, r.w)
    {
    }
  }

  // ---- one reconcile ----

  datatype Stage = AtGate | AtLeave | AtCleanup

  /** The pass released a Machine's hook. */
  ghost predicate DropsHook(trace: seq<Event>, from: nat, machine: string) {
    exists i | from <= i < |trace| :: trace[i].DropHook? && trace[i].machine == machine
  }

  /** The hooks of the departing among the first n Machines were released. */
  ghost predicate AllGone(machines: seq<Machine>, n: nat, trace: seq<Event>, from: nat)
    requires n <= |machines|
  {
    forall j | 0 <= j < n && machines[j].deleting && machines[j].hook :: DropsHook(trace, from, machines[j].name)
  }

  lemma StillGone(machines: seq<Machine>, n: nat, trace: seq<Event>, trace': seq<Event>, from: nat)
    requires n <= |machines| && AllGone(machines, n, trace, from) && trace <= trace'
    ensures AllGone(machines, n, trace', from)
  {
    forall j | 0 <= j < n && machines[j].deleting && machines[j].hook
      ensures DropsHook(trace', from, machines[j].name)
    {
      var i :| from <= i < |trace| && trace[i].DropHook? && trace[i].machine == machines[j].name;
      assert trace'[i] == trace[i];
    }
  }

  /** The leave of one Machine, as a pass left it. */
  datatype Stop = Stop(o: LeavePass, kcp: Kcp, conn: Conn, late: bool)

  const NOBODY := Machine("", None, "", [], "", false, false, false, None, None, None, None)
  const NOWHERE := World(
    Kcp(0, "", Some(""), None, false, false, "", false), map[], map[], map[], 0, 0, 0, map[], {}, {}, map[], {}, {}, {}, {})

  /** One that the pass went over, as Handled says, to the end that it is not done; frozen, say. */
  type Unfinished = s: Stop | Handled(s.o, s.kcp, s.conn, s.late) && !(s.o.done && s.o.err == None)
    ghost witness Stop(
      LeavePass(NOBODY, "", [], 0, 0, NOWHERE, [], NOBODY, false, Some(IdentityChanged), false), NOWHERE.kcp, NoConn, false)

  /** It is the leave of m, and where the last pass stopped, which began unfrozen. */
  ghost predicate StoppedAt(
    stop: Unfinished, m: Machine, machines: seq<Machine>, pin: string, w: World, trace: seq<Event>, began: nat, base: nat, calm: bool)
  {
    && stop.o.m == m && stop.o.machines == machines && stop.o.pin == stop.kcp.pin == pin
    && stop.o.w == w && stop.o.trace == trace && stop.o.began == began && stop.o.from == base + 1 && stop.o.calm == calm
  }

  /** Every address was tried, and the endpoint last. */
  ghost predicate TriedAll(tried: seq<string>, vias: seq<string>) {
    |vias| < |tried| && tried[|tried| - |vias| - 1..] == vias + [ENDPOINT]
  }

  /** The pass over m got no answer of the pinned cluster, where it needed one. */
  ghost predicate Unanswered(stop: Unfinished) {
    stop.conn == NoConn && stop.kcp.k0s && stop.kcp.pin != "" && (stop.o.m.requestedAt.Some? || stop.o.m.atPreTerminate)
  }

  /** The sweep over departing Machines, which the gate let through: each is gone over in turn, and the
      first that is not done ends the sweep. */
  method Sweep(r: Reconciler, machines: seq<Machine>, vias: seq<string>) returns (go: bool, ghost at: nat, ghost stop: Unfinished)
    requires r.Valid() && r.kcp.mismatch.None? && Views(machines, r.w)
    modifies r`trace, r`w, r`worlds, r`trouble, r`tried, r`base, r`began, r`scope, r`kcp, r`target, r`identityCheckedAt
    ensures r.Valid() && SameButMismatch(old(r.kcp), r.kcp) && Passed(old(r.trace), r.trace) && (old(r.trouble) ==> r.trouble) && old(r.tried) <= r.tried
    ensures go ==> r.kcp.mismatch.None? && AllGone(machines, |machines|, r.trace, |old(r.trace)|)
    ensures !go ==>
              && at < |machines| && machines[at].deleting && machines[at].hook && AllGone(machines, at, r.trace, |old(r.trace)|)
              && r.scope.LeaveOf? && r.scope.leave.machine == machines[at].name
              && StoppedAt(stop, machines[at], machines, old(r.kcp).pin, r.w, r.trace, r.began.now, |r.base|, !r.trouble && r.kcp.mismatch.None?)
    ensures !go ==> old(r.trace) + [NewPass] <= r.trace
    ensures !go && Unanswered(stop) ==> TriedAll(r.tried, vias)
  {
    go, at, stop := true, 0, *;
    for i := 0 to |machines|
      invariant r.Valid() && SameButMismatch(old(r.kcp), r.kcp) && r.kcp.mismatch.None? && Views(machines, r.w)
      invariant Passed(old(r.trace), r.trace) && (old(r.trouble) ==> r.trouble) && old(r.tried) <= r.tried
      invariant AllGone(machines, i, r.trace, |old(r.trace)|)
    {
      ghost var was := r.trace;
      if machines[i].deleting && machines[i].hook {
        assert machines[i] in machines;
        go, stop := LeaveOne(r, machines[i], machines, vias);
        ViewsStay(r, machines);
        PassedOn(old(r.trace), was, r.trace);
        if !go {
          at := i;
          StillGone(machines, i, was, r.trace, |old(r.trace)|);
          return;
        }
      }
      OneMoreGone(machines, i, was, r.trace, |old(r.trace)|);
    }
  }

  lemma OneMoreGone(machines: seq<Machine>, n: nat, was: seq<Event>, trace: seq<Event>, from: nat)
    requires n < |machines| && AllGone(machines, n, was, from) && was <= trace
    requires machines[n].deleting && machines[n].hook ==> DropsHook(trace, from, machines[n].name)
    ensures AllGone(machines, n + 1, trace, from)
  {
    StillGone(machines, n, was, trace, from);
  }

  /** Nothing happened, or another pass began. */
  ghost predicate Passed(was: seq<Event>, trace: seq<Event>) {
    trace == was || was + [NewPass] <= trace
  }

  lemma PassedOn(first: seq<Event>, was: seq<Event>, trace: seq<Event>)
    requires Passed(first, was) && was + [NewPass] <= trace
    ensures first + [NewPass] <= trace && Passed(first, trace)
  {
    assert trace[|was|] == NewPass && was <= trace && first <= was;
  }

  method LeaveOne(r: Reconciler, m: Machine, machines: seq<Machine>, vias: seq<string>) returns (done: bool, ghost stop: Unfinished)
    requires r.Valid() && MachineView(m, r.w) && m.hook && r.kcp.mismatch.None?
    modifies r`trace, r`w, r`worlds, r`trouble, r`tried, r`base, r`began, r`scope, r`kcp, r`target, r`identityCheckedAt
    ensures r.Valid() && r.began == old(r.w) && SameButMismatch(old(r.kcp), r.kcp) && old(r.trace) + [NewPass] <= r.trace
    ensures (old(r.trouble) ==> r.trouble) && old(r.tried) <= r.tried && r.scope.LeaveOf? && r.scope.leave.machine == m.name
    ensures done ==> r.kcp.mismatch.None? && DropsHook(r.trace, |old(r.trace)|, m.name)
    ensures !done ==> StoppedAt(stop, m, machines, old(r.kcp).pin, r.w, r.trace, r.began.now, |r.base|, !r.trouble && r.kcp.mismatch.None?)
    ensures !done && Unanswered(stop) ==> TriedAll(r.tried, vias)
  {
    r.Take(m);
    var err;
    ghost var conn;
    ghost var k, t := r.kcp, r.w.now;
    done, err, conn := ReconcileMemberLeave(r, machines, vias);
    stop := *;
    if !(done && err.None?) {
      stop := Stop(
        LeavePass(m, k.pin, machines, t, |old(r.trace)| + 1, r.w, r.trace, r.target, done, err, !r.trouble && r.kcp.mismatch.None?),
        k, conn, r.scope.leave.late);
    }
    done := done && err.None?;
  }

  /** The freeze was lifted. */
  ghost predicate Lifts(trace: seq<Event>, from: nat) {
    exists i | from < i < |trace| :: trace[i] == ClearMismatch
  }

  lemma LiftStays(trace: seq<Event>, trace': seq<Event>, from: nat)
    requires trace + [NewPass] <= trace'
    ensures Lifts(trace, from) ==> Lifts(trace', from)
  {
    if Lifts(trace, from) {
      var i :| from < i < |trace| && trace[i] == ClearMismatch;
      assert trace <= trace' && trace'[i] == trace[i];
    }
  }

  /** The gate asks every path: a pin is due and can be taken, or the last check is a minute old. */
  ghost predicate MustAsk(k: Kcp, machines: seq<Machine>, desired: int, checkedAt: Option<nat>, now: nat) {
    && k.mismatch.None?
    && if k.pin != "" then checkedAt.None? || now >= checkedAt.value + 60
       else k.kubeconfigReady && (desired > 1 || |machines| > 1) && exists m | m in machines :: m.nodeRef.Some?
  }

  /** The gate: open, and then with no freeze, and a pin wherever one is due. */
  method PassGate(r: Reconciler, machines: seq<Machine>, vias: seq<string>, desired: int) returns (open: bool)
    requires r.Valid()
    modifies r`trace, r`w, r`worlds, r`trouble, r`tried, r`base, r`began, r`scope, r`kcp, r`identityCheckedAt
    ensures r.Valid() && r.scope == IdentityOnly && r.base == old(r.trace) && r.began == old(r.w) && (old(r.trouble) ==> r.trouble)
    ensures r.kcp == old(r.kcp).(rv := r.kcp.rv, pin := r.kcp.pin, mismatch := r.kcp.mismatch) && old(r.trace) + [NewPass] <= r.trace
    ensures Stuck(old(r.kcp)) ==> !open && r.trace == old(r.trace) + [NewPass] && r.kcp == old(r.kcp)
    ensures open ==>
              && r.kcp.mismatch.None? && (forall f | f in r.w.seen && f.Answered? :: f.c == r.kcp.pin)
              && ((desired > 1 || |machines| > 1) && (exists m | m in machines :: m.nodeRef.Some?) ==> r.kcp.pin != "")
              && (old(r.kcp).mismatch.Some? ==> Lifts(r.trace, |old(r.trace)|))
    ensures !open ==> r.kcp.pin == old(r.kcp).pin
    ensures !open && old(r.kcp).mismatch.None? ==>
              if old(r.kcp).pin != "" then exists u :: Answered(u) in r.w.seen && u != old(r.kcp).pin
              else (desired > 1 || |machines| > 1) && exists m | m in machines :: m.nodeRef.Some?
    ensures MustAsk(old(r.kcp), machines, desired, old(r.identityCheckedAt), old(r.w).now) ==> r.tried == old(r.tried) + [ENDPOINT] + vias
  {
    var gate, failed;
    ghost var obs;
    gate, failed, obs := ReconcileWorkloadIdentity(r, vias, machines, desired);
    open := !failed && !gate.hold;
    if !open && old(r.kcp).mismatch.None? && old(r.kcp).pin != "" {
      ghost var o :| o in obs && o.uid.Some? && o.uid.value != old(r.kcp).pin;
      assert Answered(o.uid.value) in r.w.seen;
    }
  }

  /** Up to moment j of the trace, when the next pass begins, only the pinned cluster answered. */
  ghost predicate OnlyPinned(worlds: seq<World>, trace: seq<Event>, from: nat, j: nat, pin: string) {
    && from < j < |trace| && j < |worlds| && trace[j] == NewPass && (forall i | from < i < j :: trace[i] != NewPass)
    && forall f | f in worlds[j].seen && f.Answered? :: f.c == pin
  }

  /** The gate was passed at moment j. */
  lemma GatePassed(was: History, h: History)
    requires Held(was) && Held(h) && was.start == h.start && was.trace + [NewPass] <= h.trace
    requires forall f | f in was.end.seen && f.Answered? :: f.c == was.kcp.pin
    ensures OnlyPinned(h.worlds, h.trace, |was.base|, |was.trace|, was.kcp.pin)
  {
    assert was.trace <= h.trace;
    SamePast(was, h, |was.trace|);
    OnePass(was);
  }

  /** The cleanup, as a pass left it: what it began with, and what it came to. */
  datatype End = End(
    kcp: Kcp, machines: seq<Machine>, all: Option<seq<Machine>>, desired: int, checkedAt: Option<nat>, began: nat, base: nat,
    out: Outcome, check: Option<Check>, kcp': Kcp, checkedAt': Option<nat>, w: World, trace: seq<Event>, trouble: bool)

  /** The cleanup ran: with nothing to do, or with the Machines not listed, it did nothing, and otherwise
      what it should. */
  ghost predicate Cleaned(e: End) {
    if e.kcp.record.None? && (!e.kcp.k0s || e.desired <= 1) then e.out == GoOn && |e.trace| == e.base + 1 && e.kcp' == e.kcp
    else if e.all.None? then e.out == Fails(Silent) && |e.trace| == e.base + 1 && e.kcp' == e.kcp
    else CleanedUp(e.kcp, e.kcp', e.machines, e.all.value, e.desired, e.check, e.out, e.began, e.w, e.trace, e.base + 1,
           e.checkedAt, e.checkedAt', e.trouble)
  }

  type Finished = e: End | Cleaned(e)
    ghost witness End(NOWHERE.kcp, [], None, 0, None, 0, 0, GoOn, None, NOWHERE.kcp, None, NOWHERE, [NewPass], false)

  /** It is the cleanup the last pass made, over these Machines. */
  ghost predicate EndedAt(
    end: Finished, machines: seq<Machine>, all: Option<seq<Machine>>, desired: int, checkedAt: Option<nat>, began: nat, base: nat,
    k': Kcp, checkedAt': Option<nat>, w: World, trace: seq<Event>, trouble: bool)
  {
    && end.machines == machines && end.all == all && end.desired == desired && end.checkedAt == checkedAt
    && end.began == began && end.base == base && end.kcp' == k' && end.checkedAt' == checkedAt' && end.w == w && end.trace == trace
    && end.trouble == trouble && end.kcp.pin == k'.pin
  }

  /** The cleanup needed an answer of the pinned cluster and got none. */
  ghost predicate Unheard(end: End) {
    && end.kcp.pin != "" && end.out != Fails(IdentityChanged) && Answered(end.kcp.pin) !in end.w.seen && end.all.Some?
    && if end.kcp.record.Some? then Followed(end.kcp.record.value, end.began)
       else end.kcp.k0s && end.desired > 1 && exists reports :: ReportsAre(reports) in end.w.seen && AllVote(end.all.value, reports)
  }

  lemma TriedLast(was: seq<string>, tried: seq<string>, vias: seq<string>)
    ensures tried == was + vias + [ENDPOINT] ==> TriedAll(tried, vias)
  {
    if tried == was + vias + [ENDPOINT] {
      assert tried == was + (vias + [ENDPOINT]);
    }
  }

  /** No departing Machine is left. */
  method CleanUpAfter(r: Reconciler, machines: seq<Machine>, all: Option<seq<Machine>>, vias: seq<string>, desired: int) returns (ghost end: Finished)
    requires r.Valid() && r.kcp.mismatch.None? && (all.Some? ==> DistinctMachines(all.value))
    modifies r`trace, r`w, r`worlds, r`trouble, r`tried, r`base, r`began, r`scope, r`kcp, r`identityCheckedAt, r`orphanCheckedAt
    ensures r.Valid() && old(r.trace) + [NewPass] <= r.trace && (old(r.trouble) ==> r.trouble) && old(r.tried) <= r.tried
    ensures r.kcp.pin == old(r.kcp).pin && end.kcp == old(r.kcp)
    ensures EndedAt(end, machines, all, desired, old(r.orphanCheckedAt), r.began.now, |r.base|, r.kcp, r.orphanCheckedAt, r.w, r.trace, r.trouble)
    ensures Unheard(end) ==> TriedAll(r.tried, vias)
  {
    var out;
    ghost var check;
    out, check := ReconcileOrphanEtcdMembers(r, machines, all, vias, desired);
    end := End(old(r.kcp), machines, all, desired, old(r.orphanCheckedAt), r.began.now, |r.base|,
      out, check, r.kcp, r.orphanCheckedAt, r.w, r.trace, r.trouble);
    TriedLast(old(r.tried), r.tried, vias);
  }

  lemma GoneSince(machines: seq<Machine>, n: nat, trace: seq<Event>, from: nat, from': nat)
    requires n <= |machines| && AllGone(machines, n, trace, from) && from' <= from
    ensures AllGone(machines, n, trace, from')
  {
    forall j | 0 <= j < n && machines[j].deleting && machines[j].hook
      ensures DropsHook(trace, from', machines[j].name)
    {
      assert DropsHook(trace, from, machines[j].name);
    }
  }

  /** Past the gate: the sweep, and when it is through, the cleanup. */
  method Membership(r: Reconciler, machines: seq<Machine>, all: Option<seq<Machine>>, vias: seq<string>, desired: int, ghost from: nat)
    returns (stage: Stage, ghost at: nat, ghost stop: Unfinished, ghost end: Finished)
    requires r.Valid() && r.kcp.mismatch.None? && DistinctMachines(machines) && (all.Some? ==> DistinctMachines(all.value))
    requires Views(machines, r.began) && from <= |r.trace|
    modifies r`trace, r`w, r`worlds, r`trouble, r`tried, r`base, r`began, r`scope, r`kcp, r`target, r`identityCheckedAt, r`orphanCheckedAt
    ensures r.Valid() && old(r.trace) + [NewPass] <= r.trace && (old(r.trouble) ==> r.trouble) && old(r.tried) <= r.tried && r.kcp.pin == old(r.kcp).pin
    ensures stage != AtGate
    ensures stage == AtLeave ==>
              && at < |machines| && machines[at].deleting && machines[at].hook && AllGone(machines, at, r.trace, from)
              && r.scope.LeaveOf? && r.scope.leave.machine == machines[at].name
              && StoppedAt(stop, machines[at], machines, r.kcp.pin, r.w, r.trace, r.began.now, |r.base|, !r.trouble && r.kcp.mismatch.None?)
    ensures stage == AtCleanup ==>
              && AllGone(machines, |machines|, r.trace, from)
              && EndedAt(end, machines, all, desired, old(r.orphanCheckedAt), r.began.now, |r.base|, r.kcp, r.orphanCheckedAt, r.w, r.trace, r.trouble)
              && end.kcp.record == old(r.kcp).record && end.kcp.k0s == old(r.kcp).k0s
    ensures stage == AtLeave && Unanswered(stop) ==> TriedAll(r.tried, vias)
    ensures stage == AtCleanup && Unheard(end) ==> TriedAll(r.tried, vias)
  {
    stage, end := AtLeave, *;
    ViewsStay(r, machines);
    var go;
    go, at, stop := Sweep(r, machines, vias);
    if go {
      ghost var was := r.trace;
      stage := AtCleanup;
      end := CleanUpAfter(r, machines, all, vias, desired);
      StillGone(machines, |machines|, was, r.trace, |old(r.trace)|);
      GoneSince(machines, |machines|, r.trace, |old(r.trace)|, from);
    } else {
      GoneSince(machines, at, r.trace, |old(r.trace)|, from);
    }
  }

  /** The pass. It goes past the gate only with a pin wherever one is due, with the freeze lifted that
      it began under, and when no cluster answered the gate but the pinned one; and it is stopped there
      for nothing else. Past the gate every departing Machine is gone over in turn, up to the first that
      is not done; and when all of them are, the cleanup runs. A pass that finds a freeze it would not
      lift itself does nothing at all: no hook, no spec.leave, no leave request, no record, no pin. */
  method ReconcileMembership(r: Reconciler, machines: seq<Machine>, all: Option<seq<Machine>>, vias: seq<string>, desired: int)
    returns (stage: Stage, ghost at: nat, ghost stop: Unfinished, ghost end: Finished)
    requires r.Valid() && DistinctMachines(machines) && (all.Some? ==> DistinctMachines(all.value))
    requires Views(machines, r.w)
    modifies r`trace, r`w, r`worlds, r`trouble, r`tried, r`base, r`began, r`scope, r`kcp, r`target, r`identityCheckedAt, r`orphanCheckedAt
    ensures r.Valid() && old(r.trace) + [NewPass] <= r.trace
    ensures Stuck(old(r.kcp)) ==> stage == AtGate && r.trace == old(r.trace) + [NewPass] && r.kcp == old(r.kcp)
    ensures stage == AtGate ==>
              && r.scope == IdentityOnly && r.base == old(r.trace) && r.began == old(r.w)
              && r.kcp.pin == old(r.kcp).pin
              && (old(r.kcp).mismatch.None? ==>
                    if old(r.kcp).pin != "" then exists u :: Answered(u) in r.w.seen && u != old(r.kcp).pin
                    else (desired > 1 || |machines| > 1) && exists m | m in machines :: m.nodeRef.Some?)
    ensures stage != AtGate ==>
              && ((desired > 1 || |machines| > 1) && (exists m | m in machines :: m.nodeRef.Some?) ==> r.kcp.pin != "")
              && (old(r.kcp).mismatch.Some? ==> Lifts(r.trace, |old(r.trace)|))
              && (exists j :: OnlyPinned(r.worlds, r.trace, |old(r.trace)|, j, r.kcp.pin))
    ensures stage == AtLeave ==>
              && at < |machines| && machines[at].deleting && machines[at].hook && AllGone(machines, at, r.trace, |old(r.trace)|)
              && r.scope.LeaveOf? && r.scope.leave.machine == machines[at].name
              && StoppedAt(stop, machines[at], machines, r.kcp.pin, r.w, r.trace, r.began.now, |r.base|, !r.trouble && r.kcp.mismatch.None?)
    ensures stage == AtCleanup ==>
              && AllGone(machines, |machines|, r.trace, |old(r.trace)|)
              && EndedAt(end, machines, all, desired, old(r.orphanCheckedAt), r.began.now, |r.base|, r.kcp, r.orphanCheckedAt, r.w, r.trace, r.trouble)
              && end.kcp.record == old(r.kcp).record && end.kcp.k0s == old(r.kcp).k0s
    ensures MustAsk(old(r.kcp), machines, desired, old(r.identityCheckedAt), old(r.w).now) ==> old(r.tried) + [ENDPOINT] + vias <= r.tried
    ensures stage == AtLeave && Unanswered(stop) ==> TriedAll(r.tried, vias)
    ensures stage == AtCleanup && Unheard(end) ==> TriedAll(r.tried, vias)
  {
    var open := PassGate(r, machines, vias, desired);
    stage, at, stop, end := AtGate, *, *, *;
    if open {
      ghost var gate := r.Story();
      stage, at, stop, end := Membership(r, machines, all, vias, desired, |old(r.trace)|);
      GatePassed(gate, r.Story());
      LiftStays(gate.trace, r.trace, |old(r.trace)|);
    }
  }

  // ---- every run ----

  /** What one reconcile goes by: what the cache shows it, the addresses to try, and whether the
      controller was started anew before it. */
  datatype Reading = Reading(kcp: Kcp, machines: seq<Machine>, all: Option<seq<Machine>>, vias: seq<string>, desired: int, restarted: bool)

  predicate Readable(round: Reading, w: World) {
    && KcpView(round.kcp, w) && DistinctMachines(round.machines) && (round.all.Some? ==> DistinctMachines(round.all.value))
    && Views(round.machines, w)
  }

  method TakeRound(r: Reconciler, round: Reading)
    requires r.Valid() && Readable(round, r.w)
    modifies r
    ensures r.Valid() && old(r.trace) + [NewPass] <= r.trace
  {
    if round.restarted {
      r.Restart();
    }
    r.Adopt(round.kcp);
    var _, _, _, _ := ReconcileMembership(r, round.machines, round.all, round.vias, round.desired);
  }

  /** Every run: reconciles one after the other, each over snapshots of any age, with others acting
      before each of its calls, with any call failing, also after it took effect, and with the
      controller starting over between any two. A controller that crashes within a reconcile is one
      whose remaining calls fail. Everything that is promised of an event holds of each of its
      events, and no freeze that was written is lifted but after an edit of the pin or of the
      freeze. A round that shows what never was is skipped. */
  method AnyRun(r: Reconciler, rounds: seq<Reading>)
    requires r.Valid()
    modifies r
    ensures r.Valid() && LegalRun(r.worlds, r.trace)
    ensures forall i | 0 <= i < |r.trace| :: Promised(r.worlds, r.trace, i)
    ensures forall i, j | 0 <= i < j < |r.trace| && r.trace[i].SetMismatch? && r.trace[j].ClearMismatch? ::
              exists k | i < k < j :: !HandsOff(r.worlds, r.trace, k)
  {
    for n := 0 to |rounds|
      invariant r.Valid()
    {
      if Readable(rounds[n], r.w) {
        TakeRound(r, rounds[n]);
      }
    }
    RunKept(r);
  }

  lemma RunKept(r: Reconciler)
    requires r.Valid()
    ensures LegalRun(r.worlds, r.trace)
    ensures forall i | 0 <= i < |r.trace| :: Promised(r.worlds, r.trace, i)
    ensures forall i, j | 0 <= i < j < |r.trace| && r.trace[i].SetMismatch? && r.trace[j].ClearMismatch? ::
              exists k | i < k < j :: !HandsOff(r.worlds, r.trace, k)
  {
    Unfold(r.Story());
    AllKept(r.worlds, r.trace);
    forall i, j | 0 <= i < j < |r.trace| && r.trace[i].SetMismatch? && r.trace[j].ClearMismatch?
      ensures exists k | i < k < j :: !HandsOff(r.worlds, r.trace, k)
    {
      FreezeLiftedOnlyByRepin(r.worlds, r.trace, i, j);
    }
  }
}
