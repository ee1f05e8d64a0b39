/**
 The guard in front of every control-plane delete
 (internal/controllers/controlplane/ha_etcd.go, canRemoveMember): a live member may be
 removed only while the node reports prove that an etcd quorum of healthy voters is left.

 `Fleet` is the etcd cluster as it is, which the guard never sees; the theorems relate
 its approvals to that.
 */
module MemberRemoval {
  import opened Wrappers
  import opened EtcdTypes
  import opened Sets

  /** The parts of a Machine the guard reads. */
  datatype Target = Target(nodeRef: Option<string>, running: bool)

  datatype Verdict = Approved | Refused | ReadFailed

  function HealthyVoters(status: Reports): set<string> {
    set name | name in status && status[name].healthy && status[name].voting
  }

  method EtcdVotingHealthyCount(status: Reports) returns (n: nat)
    ensures n == |set name | name in status && status[name].healthy && status[name].voting|
  {
    n := 0;
    var left := status.Keys;
    while left != {}
      invariant left <= status.Keys
      invariant n == |HealthyVoters(status) - left|
      decreases |left|
    {
      var name :| name in left;
      var st := status[name];
      if st.healthy && st.voting {
        assert HealthyVoters(status) - (left - {name}) == (HealthyVoters(status) - left) + {name};
        n := n + 1;
      } else {
        assert HealthyVoters(status) - (left - {name}) == HealthyVoters(status) - left;
      }
      left := left - {name};
    }
    assert HealthyVoters(status) - {} == HealthyVoters(status);
  }

  /** The verdict on a target, by what it means; CanRemoveMember computes it. */
  function Guard(tearingDown: bool, replicas: Option<int>, target: Target, read: Option<Reports>): Verdict {
    if tearingDown || replicas.GetOr(1) <= 1 || target.nodeRef.None? || !target.running then Approved
    else if read.None? then ReadFailed
    else
      var status, key := read.value, target.nodeRef.value;
      if key in status && |HealthyVoters(status) - {key}| >= replicas.value / 2 + 1 then Approved else Refused
  }

  /** canRemoveMember. For a registered, running target of an HA control plane, approval means that
      the reports were read, the target is among them, and the healthy voters other than it number
      at least a majority of the desired replicas; and nothing else is refused. */
  method CanRemoveMember(tearingDown: bool, replicas: Option<int>, target: Target, read: Option<Reports>)
    returns (v: Verdict)
    ensures v == Guard(tearingDown, replicas, target, read)
    ensures !tearingDown && replicas.Some? && replicas.value > 1 && target.nodeRef.Some? && target.running ==>
              && (v == ReadFailed <==> read.None?)
              && (v == Approved <==>
                    && read.Some? && target.nodeRef.value in read.value
                    && |set name | name in read.value && read.value[name].healthy && read.value[name].voting && name != target.nodeRef.value|
                       >= replicas.value / 2 + 1)
    ensures tearingDown || replicas.None? || replicas.value <= 1 || target.nodeRef.None? || !target.running ==> v == Approved
  {
    if tearingDown {
      return Approved;
    }
    var desiredReplicas := 1;
    if replicas.Some? {
      desiredReplicas := replicas.value;
    }
    if desiredReplicas <= 1 {
      return Approved;
    }
    if target.nodeRef.None? || !target.running {
      return Approved;
    }
    if read.None? {
      return ReadFailed;
    }
    var status, key := read.value, target.nodeRef.value;
    if key !in status {
      return Refused;
    }
    OthersAreTheRest(status, key);
    var st := status[key];
    var voting := EtcdVotingHealthyCount(status);
    var postRemoval := voting;
    if st.healthy && st.voting {
      assert HealthyVoters(status) == (HealthyVoters(status) - {key}) + {key};
      postRemoval := voting - 1;
    } else {
      assert HealthyVoters(status) - {key} == HealthyVoters(status);
    }
    var quorum := desiredReplicas / 2 + 1;
    if postRemoval < quorum {
      return Refused;
    }
    return Approved;
  }

  lemma OthersAreTheRest(status: Reports, key: string)
    ensures HealthyVoters(status) == set name | name in status && status[name].healthy && status[name].voting
    ensures HealthyVoters(status) - {key} == set name | name in status && status[name].healthy && status[name].voting && name != key
  {
  }

  // ---- runs of approved removals ----

  /** The etcd cluster: its members, and the healthy voters among them. */
  datatype Fleet = Fleet(members: set<string>, healthy: set<string>)

  ghost predicate WellFormed(f: Fleet) {
    f.healthy <= f.members
  }

  ghost predicate Majority(f: Fleet) {
    2 * |f.healthy| > |f.members|
  }

  /** The reports say of each member what holds of it; reports of a node that is no member
      are allowed so long as they do not call it a healthy voter. */
  ghost predicate Accurate(status: Reports, f: Fleet) {
    forall name :: name in f.healthy <==> name in status && status[name].healthy && status[name].voting
  }

  /** The guard lets a registered, running target go. */
  predicate Approves(status: Reports, target: string, desired: int) {
    Guard(false, Some(desired), Target(Some(target), true), Some(status)) == Approved
  }

  datatype Change =
    | Remove(target: string, status: Reports) // an approved delete, with the reports it was judged on
    | Join(name: string)                      // a new member, not a healthy voter yet
    | Turn(name: string, healthy: bool)       // a member fails or recovers

  function Next(f: Fleet, c: Change): Fleet {
    match c
    case Remove(t, _) => Fleet(f.members - {t}, f.healthy - {t})
    case Join(n) => if n in f.members then f else Fleet(f.members + {n}, f.healthy)
    case Turn(n, up) => if n !in f.members then f else Fleet(f.members, if up then f.healthy + {n} else f.healthy - {n})
  }

  /** What may happen: removals the guard approves on accurate reports, and joins that keep
      within one surge machine. */
  ghost predicate Allowed(f: Fleet, c: Change, desired: nat) {
    match c
    case Remove(t, status) => t in f.members && Accurate(status, f) && Approves(status, t, desired)
    case Join(n) => |f.members + {n}| <= desired + 1
    case Turn(_, _) => true
  }

  ghost predicate Run(states: seq<Fleet>, changes: seq<Change>, desired: nat) {
    && |states| == |changes| + 1
    && forall i | 0 <= i < |changes| :: Allowed(states[i], changes[i], desired) && states[i + 1] == Next(states[i], changes[i])
  }

  lemma AccurateCount(f: Fleet, status: Reports)
    requires Accurate(status, f)
    ensures HealthyVoters(status) == f.healthy
  {
  }

  /** What the guard answers, on accurate reports, of a registered, running member of an HA control
      plane: it approves exactly when the member reported and at least desired / 2 + 1 of the others
      are healthy voters. Such an approval leaves a strict majority of the members left healthy. */
  lemma ApprovedRemovalKeepsMajority(f: Fleet, t: string, status: Reports, desired: nat)
    requires WellFormed(f) && desired > 1 && |f.members| <= desired + 1
    requires t in f.members && Accurate(status, f)
    ensures Guard(false, Some(desired), Target(Some(t), true), Some(status)) == Approved <==>
            t in status && |f.healthy - {t}| >= desired / 2 + 1
    ensures Guard(false, Some(desired), Target(Some(t), true), Some(status)) == Approved ==>
              2 * |f.healthy - {t}| > |f.members - {t}| && Majority(Next(f, Remove(t, status)))
  {
    AccurateCount(f, status);
    assert f.members == (f.members - {t}) + {t};
    assert |f.members - {t}| == |f.members| - 1;
  }

  lemma {:induction false} RunInvariant(states: seq<Fleet>, changes: seq<Change>, desired: nat, i: nat)
    requires Run(states, changes, desired) && i < |states|
    requires WellFormed(states[0]) && |states[0].members| <= desired + 1
    ensures WellFormed(states[i]) && |states[i].members| <= desired + 1
  {
    if i > 0 {
      RunInvariant(states, changes, desired, i - 1);
      var f, c := states[i - 1], changes[i - 1];
      assert states[i] == Next(f, c);
      if c.Remove? {
        assert f.members == (f.members - {c.target}) + {c.target};
      } else if c.Turn? && c.name in f.members {
        assert states[i].members == f.members;
      }
    }
  }

  /** In every run of joins, failures, recoveries and approved removals, every state an
      approved removal leaves behind has a majority of its members healthy. */
  lemma RemovalsKeepMajority(states: seq<Fleet>, changes: seq<Change>, desired: nat)
    requires Run(states, changes, desired) && desired > 1
    requires WellFormed(states[0]) && |states[0].members| <= desired + 1
    ensures forall i | 0 <= i < |changes| && changes[i].Remove? ::
              Majority(states[i + 1]) && |states[i + 1].healthy| >= desired / 2 + 1
  {
    forall i | 0 <= i < |changes| && changes[i].Remove?
      ensures Majority(states[i + 1]) && |states[i + 1].healthy| >= desired / 2 + 1
    {
      RunInvariant(states, changes, desired, i);
      ApprovedRemovalKeepsMajority(states[i], changes[i].target, changes[i].status, desired);
    }
  }

  /** With removals alone the majority is never lost, and no more than the members beyond a
      quorum can ever be approved. */
  lemma {:induction false} OnlyRemovals(states: seq<Fleet>, changes: seq<Change>, desired: nat)
    requires Run(states, changes, desired) && desired > 1
    requires WellFormed(states[0]) && |states[0].members| <= desired + 1 && Majority(states[0])
    requires forall c | c in changes :: c.Remove?
    ensures forall i | 0 <= i < |states| :: Majority(states[i])
    ensures changes != [] ==> |states[0].members| >= |changes| + desired / 2 + 1
  {
    RemovalsKeepMajority(states, changes, desired);
    forall i | 0 <= i < |states|
      ensures Majority(states[i])
    {
      if i > 0 {
        assert changes[i - 1] in changes;
      }
    }
    if changes != [] {
      var n := |changes|;
      assert changes[n - 1] in changes;
      RunInvariant(states, changes, desired, n);
      assert |states[n].healthy| <= |states[n].members| by {
        SubsetSize(states[n].healthy, states[n].members);
      }
      RemovalsCount(states, changes, desired, n);
    }
  }

  lemma {:induction false} RemovalsCount(states: seq<Fleet>, changes: seq<Change>, desired: nat, i: nat)
    requires Run(states, changes, desired) && i < |states|
    requires forall c | c in changes :: c.Remove?
    ensures |states[0].members| == |states[i].members| + i
  {
    if i > 0 {
      RemovalsCount(states, changes, desired, i - 1);
      assert changes[i - 1] in changes;
      assert states[i - 1].members == states[i].members + {changes[i - 1].target};
    }
  }

  /** The reports must be accurate: one left-over report that calls a departed node a healthy
      voter is enough for an approval that loses the majority. */
  lemma LeftOverReportLosesMajority()
    ensures exists f: Fleet, t: string, status: Reports ::
              && WellFormed(f) && |f.members| <= 3 && t in f.members && Majority(f)
              && f.healthy <= HealthyVoters(status) && |HealthyVoters(status) - f.healthy| == 1
              && Approves(status, t, 3)
              && !Majority(Next(f, Remove(t, status)))
  {
    var up := MemberStatus(true, true);
    var f := Fleet({"a", "b", "c"}, {"a", "b"});
    var status: Reports := map["a" := up, "b" := up, "c" := MemberStatus(false, true), "d" := up];
    assert HealthyVoters(status) == {"a", "b", "d"};
    assert HealthyVoters(status) - {"a"} == {"b", "d"};
    assert HealthyVoters(status) - f.healthy == {"d"};
    var after := Next(f, Remove("a", status));
    assert after.members == {"b", "c"} && after.healthy == {"b"};
    assert Approves(status, "a", 3);
  }
}
