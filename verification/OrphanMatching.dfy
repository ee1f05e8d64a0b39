/**
 Which etcd members no control-plane Machine accounts for, and when one of them may be
 removed (internal/controllers/controlplane/ha_etcd_orphans.go: unmatchedMachines,
 expectedEtcdMembers, healthyVotingMembers, orphanRemovalBlocked).
 */
module OrphanMatching {
  import opened Wrappers
  import opened EtcdTypes
  import opened Sets

  /** Machine name to the name of the member it is paired with. */
  type Pairing = map<string, string>

  // ---- the pairing ----

  /** First pass: each Machine takes the member named like its Node, unless an earlier
      Machine took it. */
  function PairByNode(machines: seq<Machine>, names: set<string>): Pairing {
    if machines == [] then map[]
    else
      var p, m := PairByNode(machines[..|machines| - 1], names), machines[|machines| - 1];
      if m.nodeRef.Some? && m.nodeRef.value in names && m.nodeRef.value !in p.Values
      then p[m.name := m.nodeRef.value] else p
  }

  /** The first joined member not used yet whose peer address the Machine reports. */
  function FirstByAddress(m: Machine, joined: seq<EtcdMember>, used: set<string>): (r: Option<string>)
    ensures r.Some? ==> r.value !in used && exists e | e in joined :: e.name == r.value && e.peer.Some? && HasAddress(m, e.peer.value)
    ensures r.None? ==> forall e | e in joined && e.name !in used && e.peer.Some? :: !HasAddress(m, e.peer.value)
  {
    if joined == [] then None
    else
      var e := joined[0];
      if e.name !in used && e.peer.Some? && HasAddress(m, e.peer.value) then Some(e.name)
      else FirstByAddress(m, joined[1..], used)
  }

  /** Second pass: the Machines left take a member by peer address. */
  function PairByAddress(machines: seq<Machine>, joined: seq<EtcdMember>, first: Pairing): Pairing {
    if machines == [] then first
    else
      var p, m := PairByAddress(machines[..|machines| - 1], joined, first), machines[|machines| - 1];
      if m.name in first then p
      else
        var e := FirstByAddress(m, joined, p.Values);
        if e.Some? then p[m.name := e.value] else p
  }

  function Pair(machines: seq<Machine>, joined: seq<EtcdMember>): Pairing {
    PairByAddress(machines, joined, PairByNode(machines, MemberNames(joined)))
  }

  /** The names of the Machines without a partner, in order. */
  function NamesOutside(machines: seq<Machine>, p: Pairing): seq<string> {
    if machines == [] then []
    else
      NamesOutside(machines[..|machines| - 1], p) +
      if machines[|machines| - 1].name in p then [] else [machines[|machines| - 1].name]
  }

  function Unmatched(machines: seq<Machine>, joined: seq<EtcdMember>): seq<string> {
    NamesOutside(machines, Pair(machines, joined))
  }

  lemma PutValues(p: Pairing, k: string, v: string)
    requires k !in p
    ensures p[k := v].Values == p.Values + {v}
  {
    var q := p[k := v];
    assert q[k] == v;
    forall x | x in p.Values
      ensures x in q.Values
    {
      var k' :| k' in p && p[k'] == x;
      assert q[k'] == x;
    }
  }

  lemma {:induction false} PairKeysKnown(machines: seq<Machine>, names: set<string>)
    ensures PairByNode(machines, names).Keys <= MachineNames(machines)
  {
    if machines != [] {
      var init := machines[..|machines| - 1];
      PairKeysKnown(init, names);
      assert machines[|machines| - 1] in machines;
      assert forall m | m in init :: m in machines;
    }
  }

  lemma {:induction false} PairByAddressKeys(machines: seq<Machine>, joined: seq<EtcdMember>, first: Pairing)
    ensures first.Keys <= PairByAddress(machines, joined, first).Keys <= first.Keys + MachineNames(machines)
    ensures forall k | k in first :: PairByAddress(machines, joined, first)[k] == first[k]
  {
    if machines != [] {
      var init := machines[..|machines| - 1];
      PairByAddressKeys(init, joined, first);
      assert machines[|machines| - 1] in machines;
      assert forall m | m in init :: m in machines;
    }
  }

  lemma FreshName(machines: seq<Machine>, i: nat)
    requires DistinctMachines(machines) && i < |machines|
    ensures machines[i].name !in MachineNames(machines[..i]) && DistinctMachines(machines[..i])
  {
  }

  /** First pass: the members used and the Machines matched by Node name. */
  method MatchByNode(machines: seq<Machine>, byName: set<string>) returns (used: set<string>, matched: set<string>)
    requires DistinctMachines(machines)
    ensures var p := PairByNode(machines, byName); used == p.Values && matched == p.Keys
  {
    used, matched := {}, {};
    for i := 0 to |machines|
      invariant var p := PairByNode(machines[..i], byName); used == p.Values && matched == p.Keys
    {
      var m := machines[i];
      assert machines[..i + 1][..i] == machines[..i];
      if m.nodeRef.None? {
        continue;
      }
      if m.nodeRef.value in byName && m.nodeRef.value !in used {
        ghost var p := PairByNode(machines[..i], byName);
        PairKeysKnown(machines[..i], byName);
        FreshName(machines, i);
        PutValues(p, m.name, m.nodeRef.value);
        used := used + {m.nodeRef.value};
        matched := matched + {m.name};
      }
    }
    assert machines[..|machines|] == machines;
  }

  /** The first member free to take by address, if any. */
  method FindByAddress(m: Machine, joined: seq<EtcdMember>, used: set<string>) returns (found: Option<string>)
    ensures found == FirstByAddress(m, joined, used)
  {
    for j := 0 to |joined|
      invariant FirstByAddress(m, joined, used) == FirstByAddress(m, joined[j..], used)
    {
      var member := joined[j];
      assert joined[j..][1..] == joined[j + 1..];
      if member.name in used {
        continue;
      }
      if member.peer.Some? && HasAddress(m, member.peer.value) {
        return Some(member.name);
      }
    }
    return None;
  }

  /** One Machine more in the second pass, seen from who is outside. */
  lemma OutsideStep(machines: seq<Machine>, joined: seq<EtcdMember>, first: Pairing, i: nat)
    requires DistinctMachines(machines) && i < |machines|
    ensures var m, p, p' := machines[i], PairByAddress(machines[..i], joined, first), PairByAddress(machines[..i + 1], joined, first);
            && p' == (if m.name in first || FirstByAddress(m, joined, p.Values).None? then p
                      else p[m.name := FirstByAddress(m, joined, p.Values).value])
            && (m.name in p <==> m.name in first)
            && NamesOutside(machines[..i + 1], p') == NamesOutside(machines[..i], p) + if m.name in p' then [] else [m.name]
  {
    var m, p, p' := machines[i], PairByAddress(machines[..i], joined, first), PairByAddress(machines[..i + 1], joined, first);
    assert machines[..i + 1][..i] == machines[..i];
    PairByAddressKeys(machines[..i], joined, first);
    FreshName(machines, i);
    OutsideStable(machines[..i], p, p', m.name);
  }

  /** unmatchedMachines, over the maps it fills. */
  method UnmatchedMachines(machines: seq<Machine>, joined: seq<EtcdMember>) returns (out: seq<string>)
    requires DistinctMachines(machines)
    ensures out == Unmatched(machines, joined)
  {
    var byName: set<string> := {};
    for i := 0 to |joined|
      invariant byName == MemberNames(joined[..i])
    {
      byName := byName + {joined[i].name};
      assert joined[..i + 1] == joined[..i] + [joined[i]];
    }
    assert joined[..|joined|] == joined;
    var used, matched := MatchByNode(machines, byName);
    ghost var first := PairByNode(machines, byName);
    out := [];
    for i := 0 to |machines|
      invariant used == PairByAddress(machines[..i], joined, first).Values
      invariant out == NamesOutside(machines[..i], PairByAddress(machines[..i], joined, first))
    {
      var m := machines[i];
      OutsideStep(machines, joined, first, i);
      if m.name in matched {
        continue;
      }
      var found := FindByAddress(m, joined, used);
      if found.Some? {
        PutValues(PairByAddress(machines[..i], joined, first), m.name, found.value);
        used := used + {found.value};
      } else {
        out := out + [m.name];
      }
    }
    assert machines[..|machines|] == machines;
  }

  /** Pairing one Machine more does not change who of the others is outside. */
  lemma {:induction false} OutsideStable(machines: seq<Machine>, p: Pairing, p': Pairing, k: string)
    requires k !in MachineNames(machines)
    requires forall x | x != k :: x in p <==> x in p'
    ensures NamesOutside(machines, p) == NamesOutside(machines, p')
  {
    if machines != [] {
      assert machines[|machines| - 1] in machines;
      assert forall m | m in machines[..|machines| - 1] :: m in machines;
      OutsideStable(machines[..|machines| - 1], p, p', k);
    }
  }

  // ---- who is expected, and who is healthy ----

  datatype Expected = Expected(names: set<string>, addrs: set<string>)

  /** A control-plane Machine accounts for the member, by name or by peer address. */
  predicate Has(e: Expected, member: EtcdMember) {
    member.name in e.names || (member.peer.Some? && member.peer.value in e.addrs)
  }

  ghost predicate NamedBy(m: Machine, name: string) {
    ToLower(m.hostname) == name || m.nodeRef == Some(name)
  }

  /** Every name the Machines go by, and every address they report. */
  ghost predicate AccountsFor(e: Expected, machines: seq<Machine>) {
    && (forall n :: n in e.names <==> exists m | m in machines :: NamedBy(m, n))
    && (forall a :: a in e.addrs <==> exists m | m in machines :: Some(a) in m.addresses)
  }

  method ExpectedEtcdMembers(machines: seq<Machine>) returns (e: Expected)
    ensures AccountsFor(e, machines)
  {
    var names: set<string>, addrs: set<string> := {}, {};
    for i := 0 to |machines|
      invariant forall n :: n in names <==> exists m | m in machines[..i] :: NamedBy(m, n)
      invariant forall a :: a in addrs <==> exists m | m in machines[..i] :: Some(a) in m.addresses
    {
      var m := machines[i];
      ghost var names0, addrs0 := names, addrs;
      assert machines[..i + 1] == machines[..i] + [m];
      names := names + {RenderedNodeName(m)};
      if m.nodeRef.Some? {
        names := names + {m.nodeRef.value};
      }
      for j := 0 to |m.addresses|
        invariant forall a :: a in addrs <==> a in addrs0 || Some(a) in m.addresses[..j]
      {
        if m.addresses[j].Some? {
          addrs := addrs + {m.addresses[j].value};
        }
      }
      assert m.addresses[..|m.addresses|] == m.addresses;
      assert forall n :: n in names <==> n in names0 || NamedBy(m, n);
      assert forall a :: a in addrs <==> a in addrs0 || Some(a) in m.addresses;
    }
    assert machines[..|machines|] == machines;
    e := Expected(names, addrs);
  }

  /** The member is nobody's: what makes it an orphan. */
  ghost predicate Unaccounted(machines: seq<Machine>, member: EtcdMember) {
    forall m | m in machines ::
      !NamedBy(m, member.name) && (member.peer.Some? ==> Some(member.peer.value) !in m.addresses)
  }

  lemma UnaccountedIsNotHad(e: Expected, machines: seq<Machine>, member: EtcdMember)
    requires AccountsFor(e, machines)
    ensures Has(e, member) <==> !Unaccounted(machines, member)
  {
  }

  function Registered(machines: seq<Machine>): set<string> {
    set m | m in machines && m.nodeRef.Some? :: m.nodeRef.value
  }

  predicate Votes(status: Reports, name: string) {
    name in status && status[name].healthy && status[name].voting
  }

  /** The healthy voters that stay: members named like a registered Machine's Node, reported healthy
      and voting, other than the one removed. */
  ghost function HealthyLeft(joined: seq<EtcdMember>, target: string, machines: seq<Machine>, status: Reports): set<string> {
    set e | e in joined && e.name != target && (exists m | m in machines :: m.nodeRef == Some(e.name)) &&
            e.name in status && status[e.name].healthy && status[e.name].voting :: e.name
  }

  method RegisteredNodes(machines: seq<Machine>) returns (registered: set<string>)
    ensures registered == Registered(machines)
  {
    registered := {};
    for i := 0 to |machines|
      invariant registered == Registered(machines[..i])
    {
      assert machines[..i + 1] == machines[..i] + [machines[i]];
      if machines[i].nodeRef.Some? {
        registered := registered + {machines[i].nodeRef.value};
      }
    }
    assert machines[..|machines|] == machines;
  }

  ghost predicate Counts(name: string, target: string, registered: set<string>, status: Reports) {
    name != target && name in registered && Votes(status, name)
  }

  lemma HealthyOneMore(joined: seq<EtcdMember>, e: EtcdMember, target: string, machines: seq<Machine>, status: Reports)
    requires forall x | x in joined :: x.name != e.name
    ensures |HealthyLeft(joined + [e], target, machines, status)| ==
            |HealthyLeft(joined, target, machines, status)| + if Counts(e.name, target, Registered(machines), status) then 1 else 0
  {
    var was, now := HealthyLeft(joined, target, machines, status), HealthyLeft(joined + [e], target, machines, status);
    assert e.name !in was;
    assert now == if Counts(e.name, target, Registered(machines), status) then was + {e.name} else was;
  }

  method HealthyVotingMembers(joined: seq<EtcdMember>, removing: EtcdMember, machines: seq<Machine>, status: Reports)
    returns (n: nat)
    requires DistinctMembers(joined)
    ensures n == |HealthyLeft(joined, removing.name, machines, status)|
  {
    var registered := RegisteredNodes(machines);
    n := 0;
    for i := 0 to |joined|
      invariant n == |HealthyLeft(joined[..i], removing.name, machines, status)|
    {
      var name := joined[i].name;
      assert joined[..i + 1] == joined[..i] + [joined[i]];
      HealthyOneMore(joined[..i], joined[i], removing.name, machines, status);
      if name == removing.name || name !in registered {
        continue;
      }
      if Votes(status, name) {
        n := n + 1;
      }
    }
    assert joined[..|joined|] == joined;
  }

  // ---- the decision ----

  /** Go's division of an int by two: toward zero. */
  function Half(n: int): int {
    if n >= 0 then n / 2 else -((-n) / 2)
  }

  /** The healthy voters a removal must leave: a majority of the members left, and of the
      desired replicas. */
  function Needed(members: nat, desired: int): int {
    var need, q := Half(members - 1) + 1, Half(desired) + 1;
    if q > need then q else need
  }

  ghost predicate Blocked(machines: seq<Machine>, joined: seq<EtcdMember>, target: string, status: Reports, desired: int) {
    Unmatched(machines, joined) != [] || |HealthyLeft(joined, target, machines, status)| < Needed(|joined|, desired)
  }

  method OrphanRemovalBlocked(machines: seq<Machine>, joined: seq<EtcdMember>, target: EtcdMember, status: Reports, desired: int)
    returns (blocked: bool)
    requires DistinctMachines(machines) && DistinctMembers(joined)
    ensures blocked == Blocked(machines, joined, target.name, status, desired)
    ensures joined != [] ==>
              var h := |HealthyLeft(joined, target.name, machines, status)|;
              blocked <==> Unmatched(machines, joined) != [] || 2 * h <= |joined| - 1 || 2 * h <= desired
  {
    var unmatched := UnmatchedMachines(machines, joined);
    if |unmatched| > 0 {
      return true;
    }
    var healthy := HealthyVotingMembers(joined, target, machines, status);
    var left := |joined| - 1;
    var need := Half(left) + 1;
    var q := Half(desired) + 1;
    if q > need {
      need := q;
    }
    return healthy < need;
  }

  // ---- what an unblocked removal guarantees ----

  predicate Injective(p: Pairing) {
    forall a, b | a in p && b in p && p[a] == p[b] :: a == b
  }

  /** Each pair is a Machine and a joined member that it names or addresses. */
  ghost predicate Justified(p: Pairing, machines: seq<Machine>, joined: seq<EtcdMember>) {
    forall k | k in p :: exists m, e | m in machines && e in joined :: Partners(m, e, k, p[k])
  }

  ghost predicate Partners(m: Machine, e: EtcdMember, k: string, v: string) {
    m.name == k && e.name == v && (m.nodeRef == Some(v) || (e.peer.Some? && Some(e.peer.value) in m.addresses))
  }

  lemma PutInjective(p: Pairing, k: string, v: string)
    requires Injective(p) && k !in p && v !in p.Values
    ensures Injective(p[k := v])
  {
    assert forall a | a in p :: p[a] in p.Values;
  }

  lemma {:induction false} PairByNodeSound(machines: seq<Machine>, all: seq<Machine>, joined: seq<EtcdMember>)
    requires DistinctMachines(machines) && forall m | m in machines :: m in all
    ensures var p := PairByNode(machines, MemberNames(joined)); Injective(p) && Justified(p, all, joined)
  {
    if machines != [] {
      var init, m := machines[..|machines| - 1], machines[|machines| - 1];
      var names := MemberNames(joined);
      PairByNodeSound(init, all, joined);
      var p := PairByNode(init, names);
      PairKeysKnown(init, names);
      FreshName(machines, |machines| - 1);
      if m.nodeRef.Some? && m.nodeRef.value in names && m.nodeRef.value !in p.Values {
        PutInjective(p, m.name, m.nodeRef.value);
        var e :| e in joined && e.name == m.nodeRef.value;
        assert Partners(m, e, m.name, e.name);
      }
    }
  }

  lemma {:induction false} PairByAddressSound(machines: seq<Machine>, all: seq<Machine>, joined: seq<EtcdMember>, first: Pairing)
    requires DistinctMachines(machines) && forall m | m in machines :: m in all
    requires Injective(first) && Justified(first, all, joined)
    ensures var p := PairByAddress(machines, joined, first); Injective(p) && Justified(p, all, joined)
  {
    if machines != [] {
      var init, m := machines[..|machines| - 1], machines[|machines| - 1];
      PairByAddressSound(init, all, joined, first);
      var p := PairByAddress(init, joined, first);
      PairByAddressKeys(init, joined, first);
      FreshName(machines, |machines| - 1);
      if m.name !in first {
        var v := FirstByAddress(m, joined, p.Values);
        if v.Some? {
          PutInjective(p, m.name, v.value);
          var e :| e in joined && e.name == v.value && e.peer.Some? && HasAddress(m, e.peer.value);
          assert Partners(m, e, m.name, e.name);
        }
      }
    }
  }

  lemma {:induction false} NoneOutside(machines: seq<Machine>, p: Pairing)
    ensures NamesOutside(machines, p) == [] <==> MachineNames(machines) <= p.Keys
  {
    if machines != [] {
      var init, m := machines[..|machines| - 1], machines[|machines| - 1];
      NoneOutside(init, p);
      assert machines == init + [m];
    }
  }

  /** No unmatched Machine means an injection from all the Machines into the joined members. */
  lemma PairingIsInjection(machines: seq<Machine>, joined: seq<EtcdMember>)
    requires DistinctMachines(machines) && Unmatched(machines, joined) == []
    ensures var p := Pair(machines, joined);
            p.Keys == MachineNames(machines) && Injective(p) && Justified(p, machines, joined)
  {
    var names := MemberNames(joined);
    PairByNodeSound(machines, machines, joined);
    PairByAddressSound(machines, machines, joined, PairByNode(machines, names));
    PairKeysKnown(machines, names);
    PairByAddressKeys(machines, joined, PairByNode(machines, names));
    NoneOutside(machines, Pair(machines, joined));
  }

  /** A Machine that the pass leaves outside could not have taken a member that is free. */
  ghost predicate NoneToTake(p: Pairing, m: Machine, joined: seq<EtcdMember>) {
    m.name !in p ==> forall e | e in joined && e.name !in p.Values ::
      m.nodeRef != Some(e.name) && (e.peer.None? || Some(e.peer.value) !in m.addresses)
  }

  lemma {:induction false} NamesTaken(machines: seq<Machine>, names: set<string>, m: Machine)
    requires DistinctMachines(machines) && m in machines
    ensures var p := PairByNode(machines, names); m.name !in p && m.nodeRef.Some? && m.nodeRef.value in names ==> m.nodeRef.value in p.Values
  {
    var init, last := machines[..|machines| - 1], machines[|machines| - 1];
    var p := PairByNode(init, names);
    PairKeysKnown(init, names);
    FreshName(machines, |machines| - 1);
    if last.nodeRef.Some? && last.nodeRef.value in names && last.nodeRef.value !in p.Values {
      PutValues(p, last.name, last.nodeRef.value);
    }
    if m in init {
      NamesTaken(init, names, m);
    }
  }

  lemma {:induction false} AddressesTaken(machines: seq<Machine>, joined: seq<EtcdMember>, first: Pairing, m: Machine)
    requires DistinctMachines(machines)
    ensures var p := PairByAddress(machines, joined, first);
            && first.Values <= p.Values
            && (m in machines && m.name !in p ==> forall e | e in joined && e.name !in p.Values && e.peer.Some? :: Some(e.peer.value) !in m.addresses)
  {
    if machines != [] {
      var init, last := machines[..|machines| - 1], machines[|machines| - 1];
      var p := PairByAddress(init, joined, first);
      AddressesTaken(init, joined, first, m);
      PairByAddressKeys(init, joined, first);
      FreshName(machines, |machines| - 1);
      if last.name !in first {
        var e := FirstByAddress(last, joined, p.Values);
        if e.Some? {
          PutValues(p, last.name, e.value);
        }
      }
    }
  }

  /** The pairing is maximal: none is left outside that a free member would fit. */
  lemma PairingIsMaximal(machines: seq<Machine>, joined: seq<EtcdMember>, m: Machine)
    requires DistinctMachines(machines) && m in machines
    ensures NoneToTake(Pair(machines, joined), m, joined)
  {
    var names := MemberNames(joined);
    var first := PairByNode(machines, names);
    NamesTaken(machines, names, m);
    AddressesTaken(machines, joined, first, m);
    PairByAddressKeys(machines, joined, first);
    assert forall e | e in joined :: e.name in names;
  }

  lemma {:induction false} InjectiveSize(p: Pairing)
    requires Injective(p)
    ensures |p.Values| == |p.Keys|
    decreases |p.Keys|
  {
    if p.Keys != {} {
      var k :| k in p.Keys;
      var q := p - {k};
      assert q.Keys == p.Keys - {k};
      InjectiveSize(q);
      assert p[k] !in q.Values;
      assert p == q[k := p[k]];
      PutValues(q, k, p[k]);
    } else {
      assert p.Values == {};
    }
  }

  lemma {:induction false} NamesCount(members: seq<EtcdMember>)
    requires DistinctMembers(members)
    ensures |MemberNames(members)| == |members|
  {
    if members != [] {
      var init, e := members[..|members| - 1], members[|members| - 1];
      assert members == init + [e];
      NamesCount(init);
      assert e.name !in MemberNames(init);
      assert MemberNames(members) == MemberNames(init) + {e.name};
    }
  }

  lemma {:induction false} MachineNamesCount(machines: seq<Machine>)
    requires DistinctMachines(machines)
    ensures |MachineNames(machines)| == |machines|
  {
    if machines != [] {
      var init, m := machines[..|machines| - 1], machines[|machines| - 1];
      assert machines == init + [m];
      MachineNamesCount(init);
      assert m.name !in MachineNames(init);
      assert MachineNames(machines) == MachineNames(init) + {m.name};
    }
  }

  lemma SameNameSameMember(joined: seq<EtcdMember>, a: EtcdMember, b: EtcdMember)
    requires DistinctMembers(joined) && a in joined && b in joined
    ensures a.name == b.name ==> a == b
  {
    var i :| 0 <= i < |joined| && joined[i] == a;
    var j :| 0 <= j < |joined| && joined[j] == b;
  }

  /** A member that is nobody's is nobody's partner. */
  lemma PairingSpares(machines: seq<Machine>, joined: seq<EtcdMember>, target: EtcdMember)
    requires DistinctMachines(machines) && DistinctMembers(joined) && target in joined
    requires Unaccounted(machines, target) && Unmatched(machines, joined) == []
    ensures Pair(machines, joined).Values <= MemberNames(joined) - {target.name}
  {
    var p := Pair(machines, joined);
    PairingIsInjection(machines, joined);
    forall v | v in p.Values
      ensures v in MemberNames(joined) - {target.name}
    {
      var k :| k in p && p[k] == v;
      var m, e :| m in machines && e in joined && Partners(m, e, k, p[k]);
      SameNameSameMember(joined, e, target);
      assert !Partners(m, target, k, target.name);
    }
  }

  /** The members that are left are at least as many as the Machines, paired with them one to
      one without the target, and the healthy voters left are a strict majority of them and
      of the desired replicas. */
  lemma UnblockedRemovalIsSafe(machines: seq<Machine>, joined: seq<EtcdMember>, target: EtcdMember, status: Reports, desired: int)
    requires DistinctMachines(machines) && DistinctMembers(joined) && target in joined
    requires Unaccounted(machines, target)
    requires !Blocked(machines, joined, target.name, status, desired)
    ensures var p := Pair(machines, joined);
            && Injective(p) && p.Keys == MachineNames(machines)
            && p.Values <= MemberNames(joined) - {target.name}
            && |machines| <= |joined| - 1
    ensures var h := HealthyLeft(joined, target.name, machines, status);
            && h <= MemberNames(joined) - {target.name}
            && 2 * |h| > |joined| - 1
            && 2 * |h| > desired
  {
    var p := Pair(machines, joined);
    PairingIsInjection(machines, joined);
    PairingSpares(machines, joined, target);
    InjectiveSize(p);
    MachineNamesCount(machines);
    NamesCount(joined);
    SubsetSize(p.Values, MemberNames(joined) - {target.name});
    assert |MemberNames(joined) - {target.name}| == |joined| - 1;
  }

  // ---- progress ----

  /** A control plane whose Machines all registered distinct Nodes, are members by that name,
      and report healthy and voting. */
  ghost predicate Steady(machines: seq<Machine>, joined: seq<EtcdMember>, status: Reports) {
    && DistinctMachines(machines) && DistinctMembers(joined)
    && (forall m | m in machines :: m.nodeRef.Some? && m.nodeRef.value in MemberNames(joined) && Votes(status, m.nodeRef.value))
    && (forall i, j | 0 <= i < j < |machines| :: machines[i].nodeRef != machines[j].nodeRef)
  }

  lemma {:induction false} PairByNodeComplete(machines: seq<Machine>, names: set<string>)
    requires DistinctMachines(machines)
    requires forall m | m in machines :: m.nodeRef.Some? && m.nodeRef.value in names
    requires forall i, j | 0 <= i < j < |machines| :: machines[i].nodeRef != machines[j].nodeRef
    ensures PairByNode(machines, names).Keys == MachineNames(machines)
    ensures PairByNode(machines, names).Values == Registered(machines)
  {
    if machines != [] {
      var init, m := machines[..|machines| - 1], machines[|machines| - 1];
      assert machines == init + [m];
      PairByNodeComplete(init, names);
      FreshName(machines, |machines| - 1);
      assert m.nodeRef.value !in Registered(init);
      PutValues(PairByNode(init, names), m.name, m.nodeRef.value);
    } else {
      assert Registered(machines) == {} && PairByNode(machines, names).Values == {};
    }
  }

  lemma {:induction false} RegisteredCount(machines: seq<Machine>)
    requires forall m | m in machines :: m.nodeRef.Some?
    requires forall i, j | 0 <= i < j < |machines| :: machines[i].nodeRef != machines[j].nodeRef
    ensures |Registered(machines)| == |machines|
  {
    if machines != [] {
      var init, m := machines[..|machines| - 1], machines[|machines| - 1];
      assert machines == init + [m];
      RegisteredCount(init);
      assert m.nodeRef.value !in Registered(init);
      assert Registered(machines) == Registered(init) + {m.nodeRef.value};
    }
  }

  /** In a steady control plane of the desired size, quorum blocks the removal of an orphan
      exactly when the members number more than twice the Machines. */
  lemma SteadyBlockedIff(machines: seq<Machine>, joined: seq<EtcdMember>, target: EtcdMember, status: Reports)
    requires Steady(machines, joined, status) && machines != []
    requires target in joined && Unaccounted(machines, target)
    ensures Blocked(machines, joined, target.name, status, |machines|) <==> |joined| > 2 * |machines|
  {
    var names := MemberNames(joined);
    PairByNodeComplete(machines, names);
    PairByAddressKeys(machines, joined, PairByNode(machines, names));
    NoneOutside(machines, Pair(machines, joined));
    RegisteredCount(machines);
    var h := HealthyLeft(joined, target.name, machines, status);
    forall n | n in Registered(machines)
      ensures n in h
    {
      var m :| m in machines && m.nodeRef == Some(n);
      var e :| e in joined && e.name == n;
      assert NamedBy(m, n);
    }
    assert h == Registered(machines);
  }

  /** An orphan the cleanup may name: a valid object name and a member ID. */
  ghost predicate Usable(e: EtcdMember) {
    IsSubdomain(e.name) && e.id.Some?
  }

  ghost function Orphans(machines: seq<Machine>, joined: seq<EtcdMember>): set<EtcdMember> {
    set e | e in joined && Unaccounted(machines, e)
  }

  function Without(joined: seq<EtcdMember>, name: string): seq<EtcdMember> {
    if joined == [] then []
    else (if joined[0].name == name then [] else [joined[0]]) + Without(joined[1..], name)
  }

  lemma {:induction false} WithoutMembers(joined: seq<EtcdMember>, name: string)
    ensures forall e :: e in Without(joined, name) <==> e in joined && e.name != name
    ensures DistinctMembers(joined) ==> DistinctMembers(Without(joined, name))
    ensures |Without(joined, name)| <= |joined|
  {
    if joined != [] {
      WithoutMembers(joined[1..], name);
    }
  }

  /** A member the next round may take: an orphan that can be named and is not blocked. */
  ghost predicate Removable(machines: seq<Machine>, joined: seq<EtcdMember>, status: Reports, t: EtcdMember) {
    t in Orphans(machines, joined) && Usable(t) && !Blocked(machines, joined, t.name, status, |machines|)
  }

  ghost predicate CanGoOn(machines: seq<Machine>, joined: seq<EtcdMember>, status: Reports) {
    exists t :: Removable(machines, joined, status, t)
  }

  /** One round of the cleanup: such a member goes, and k0s reports it gone. */
  ghost predicate Round(machines: seq<Machine>, joined: seq<EtcdMember>, joined': seq<EtcdMember>, status: Reports) {
    exists t :: Removable(machines, joined, status, t) && joined' == Without(joined, t.name)
  }

  lemma WithoutOrphan(machines: seq<Machine>, joined: seq<EtcdMember>, t: EtcdMember)
    requires DistinctMembers(joined) && t in Orphans(machines, joined)
    ensures forall e :: e in Without(joined, t.name) <==> e in joined && e != t
    ensures Orphans(machines, Without(joined, t.name)) == Orphans(machines, joined) - {t}
  {
    WithoutMembers(joined, t.name);
    forall e | e in joined
      ensures e.name == t.name ==> e == t
    {
      SameNameSameMember(joined, e, t);
    }
  }

  /** A round keeps the control plane steady and removes exactly one orphan. */
  lemma RoundRemovesOne(machines: seq<Machine>, joined: seq<EtcdMember>, joined': seq<EtcdMember>, status: Reports)
    requires Steady(machines, joined, status) && Round(machines, joined, joined', status)
    ensures Steady(machines, joined', status)
    ensures |Orphans(machines, joined')| == |Orphans(machines, joined)| - 1
    ensures Orphans(machines, joined') <= Orphans(machines, joined)
    ensures |joined'| <= |joined|
    ensures forall e | e in joined && !Unaccounted(machines, e) :: e in joined'
  {
    var t :| Removable(machines, joined, status, t) && joined' == Without(joined, t.name);
    WithoutOrphan(machines, joined, t);
    WithoutMembers(joined, t.name);
    forall m | m in machines
      ensures m.nodeRef.value in MemberNames(joined')
    {
      var e :| e in joined && e.name == m.nodeRef.value;
      assert NamedBy(m, e.name);
      assert e in joined';
    }
  }

  /** While an orphan is left in a steady control plane with at most twice as many members as
      Machines, a round can be taken. */
  lemma RoundPossible(machines: seq<Machine>, joined: seq<EtcdMember>, status: Reports)
    requires Steady(machines, joined, status) && machines != [] && |joined| <= 2 * |machines|
    requires Orphans(machines, joined) != {} && forall e | e in Orphans(machines, joined) :: Usable(e)
    ensures CanGoOn(machines, joined, status)
  {
    var t :| t in Orphans(machines, joined);
    SteadyBlockedIff(machines, joined, t, status);
    assert Removable(machines, joined, status, t);
  }

  ghost predicate Cleanup(machines: seq<Machine>, rounds: seq<seq<EtcdMember>>, status: Reports) {
    rounds != [] && forall i | 0 <= i < |rounds| - 1 :: Round(machines, rounds[i], rounds[i + 1], status)
  }

  /** The cleanup ends after exactly as many rounds as there were orphans: a run of rounds that
      cannot go on has removed every orphan, and every other member is still there. */
  lemma {:induction false} CleanupRemovesAll(machines: seq<Machine>, rounds: seq<seq<EtcdMember>>, status: Reports)
    requires Cleanup(machines, rounds, status) && machines != []
    requires Steady(machines, rounds[0], status) && |rounds[0]| <= 2 * |machines|
    requires forall e | e in Orphans(machines, rounds[0]) :: Usable(e)
    ensures |Orphans(machines, rounds[|rounds| - 1])| == |Orphans(machines, rounds[0])| - (|rounds| - 1)
    ensures !CanGoOn(machines, rounds[|rounds| - 1], status) <==> Orphans(machines, rounds[|rounds| - 1]) == {}
    ensures forall e | e in rounds[0] && !Unaccounted(machines, e) :: e in rounds[|rounds| - 1]
    decreases |rounds|
  {
    if |rounds| == 1 {
      if Orphans(machines, rounds[0]) != {} {
        RoundPossible(machines, rounds[0], status);
      }
    } else {
      RoundRemovesOne(machines, rounds[0], rounds[1], status);
      var rest := rounds[1..];
      assert rest[|rest| - 1] == rounds[|rounds| - 1];
      CleanupRemovesAll(machines, rest, status);
    }
  }
}
