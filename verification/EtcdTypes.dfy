/**
 The objects the etcd-membership protocol of the control plane reads and writes:
 control-plane Machines in the management cluster, and k0s's EtcdMember objects in a
 workload cluster.

 IP addresses are in canonical text form; an address that does not parse is None.
*/
module EtcdTypes {
  import opened Wrappers

  /** An RFC 3339 annotation: a time in seconds, or text that does not parse. */
  datatype Stamp = At(t: nat) | Garbled

  datatype Machine = Machine(
    name: string,
    nodeRef: Option<string>,          // status.nodeRef.name
    hostname: string,                 // the hostname its KairosConfig renders, as written
    addresses: seq<Option<string>>,   // status.addresses
    version: string,
    deleting: bool,
    atPreTerminate: bool,             // CAPI waits on the pre-terminate hooks
    hook: bool,                       // the etcd-leave hook annotation
    requestedAt: Option<Stamp>,       // etcd-leave-requested-at
    unreachableSince: Option<Stamp>,  // etcd-leave-unreachable-since
    delegatedAt: Option<Stamp>,       // etcd-member-leave-requested-at
    memberID: Option<string>)         // etcd-member-leave-member-id

  datatype EtcdMember = EtcdMember(
    name: string,
    id: Option<string>,     // status.memberID, canonical
    peer: Option<string>,   // the IP of status.peerAddress
    notJoined: bool,        // the Joined condition is False
    leave: bool,            // spec.leave
    rv: nat)                // resourceVersion

  /** One node's entry in the etcd-status Secret, which the nodes write. */
  datatype MemberStatus = MemberStatus(healthy: bool, voting: bool)

  type Reports = map<string, MemberStatus>

  function ToLower(s: string): (l: string)
    ensures |l| == |s|
  {
    seq(|s|, i requires 0 <= i < |s| => if 'A' <= s[i] <= 'Z' then (s[i] as int + 32) as char else s[i])
  }

  /** No letter stays upper-case, each becomes its lower-case one, and nothing else changes. */
  lemma {:induction false} LowerCase(s: string)
    ensures |ToLower(s)| == |s| && ToLower(ToLower(s)) == ToLower(s) && forall c | c in ToLower(s) :: !('A' <= c <= 'Z')
    ensures forall i | 0 <= i < |s| && !('A' <= s[i] <= 'Z') :: ToLower(s)[i] == s[i]
    ensures ToLower("ABCDEFGHIJKLMNOPQRSTUVWXYZ") == "abcdefghijklmnopqrstuvwxyz"
  {
    assert forall i | 0 <= i < |s| :: !('A' <= ToLower(s)[i] <= 'Z');
  }

  /** renderedNodeName: the name the node registers under, before it has. */
  function RenderedNodeName(m: Machine): string {
    ToLower(m.hostname)
  }

  /** leaveNodeName: the name a Machine's member goes by. */
  function LeaveNodeName(m: Machine): string {
    m.nodeRef.GetOr(RenderedNodeName(m))
  }

  predicate IsAlnum(c: char) {
    'a' <= c <= 'z' || '0' <= c <= '9'
  }

  /** A DNS-1123 label, which ValidNodeHostname asks of a rendered hostname. */
  predicate IsLabel(s: string) {
    && 0 < |s| <= 63
    && IsAlnum(s[0]) && IsAlnum(s[|s| - 1])
    && forall c | c in s :: IsAlnum(c) || c == '-'
  }

  lemma LabelIsLower(s: string)
    requires IsLabel(s)
    ensures ToLower(s) == s
  {
    forall i | 0 <= i < |s|
      ensures ToLower(s)[i] == s[i]
    {
      assert s[i] in s;
    }
  }

  /** A DNS-1123 subdomain, as every object name is (validEtcdMemberName). */
  predicate IsSubdomain(s: string) {
    && 0 < |s| <= 253
    && IsAlnum(s[0]) && IsAlnum(s[|s| - 1])
    && (forall c | c in s :: IsAlnum(c) || c == '-' || c == '.')
    && forall i | 0 < i < |s| - 1 && s[i] == '.' :: IsAlnum(s[i - 1]) && IsAlnum(s[i + 1])
  }

  /** A label is a short name without dots. */
  lemma LabelIsSubdomain(s: string)
    ensures IsLabel(s) <==> IsSubdomain(s) && |s| <= 63 && '.' !in s
  {
    assert forall i | 0 <= i < |s| :: s[i] in s;
    if IsLabel(s) {
      assert forall c | c in s :: c != '.';
    }
  }

  /** Names are joined by dots. */
  lemma SubdomainsJoin(a: string, b: string)
    requires IsSubdomain(a) && IsSubdomain(b) && |a| + 1 + |b| <= 253
    ensures IsSubdomain(a + "." + b)
  {
    var s := a + "." + b;
    forall i | 0 < i < |s| - 1 && s[i] == '.'
      ensures IsAlnum(s[i - 1]) && IsAlnum(s[i + 1])
    {
      if i < |a| {
        assert s[i] == a[i] && s[i - 1] == a[i - 1];
        if i < |a| - 1 {
          assert s[i + 1] == a[i + 1];
        }
      } else if i > |a| {
        var k := i - |a| - 1;
        assert s[i] == b[k] && s[i + 1] == b[k + 1];
        if k > 0 {
          assert s[i - 1] == b[k - 1];
        }
      } else {
        assert s[i - 1] == a[|a| - 1] && s[i + 1] == b[0];
      }
    }
  }

  /** And fall into names at each of them. */
  lemma SubdomainsSplit(s: string, k: nat)
    requires IsSubdomain(s) && k < |s| && s[k] == '.'
    ensures IsSubdomain(s[..k]) && IsSubdomain(s[k + 1..])
  {
    var a, b := s[..k], s[k + 1..];
    assert 0 < k < |s| - 1;
    forall i | 0 < i < |a| - 1 && a[i] == '.'
      ensures IsAlnum(a[i - 1]) && IsAlnum(a[i + 1])
    {
      assert s[i] == '.';
    }
    forall i | 0 < i < |b| - 1 && b[i] == '.'
      ensures IsAlnum(b[i - 1]) && IsAlnum(b[i + 1])
    {
      assert s[k + 1 + i] == '.' && b[i - 1] == s[k + i] && b[i + 1] == s[k + 2 + i];
    }
  }

  predicate HasAddress(m: Machine, ip: string) {
    Some(ip) in m.addresses
  }

  /** Machines are listed by name, and no two share one. */
  predicate DistinctMachines(machines: seq<Machine>) {
    forall i, j | 0 <= i < j < |machines| :: machines[i].name != machines[j].name
  }

  predicate DistinctMembers(members: seq<EtcdMember>) {
    forall i, j | 0 <= i < j < |members| :: members[i].name != members[j].name
  }

  function MemberNames(members: seq<EtcdMember>): set<string> {
    set m | m in members :: m.name
  }

  function MachineNames(machines: seq<Machine>): set<string> {
    set m | m in machines :: m.name
  }
}
