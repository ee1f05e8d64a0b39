/**
 The members a k0s join token may point at (liveK0sJoinServers and ownMemberAddresses in
 internal/controllers/controlplane/ha_k0s_jointoken.go).

 An IP address is its 128-bit value; one that does not parse is None. The join URL of a
 member is a function of its address, so addresses stand for URLs.
*/
module K0sJoinServers {
  import opened Wrappers

  datatype Host = Host(deleting: bool, addresses: seq<Option<nat>>)

  /** An endpoint of the default/kubernetes EndpointSlice; a condition may be absent. */
  datatype Endpoint = Endpoint(ready: Option<bool>, terminating: Option<bool>, addresses: seq<Option<nat>>)

  datatype Slice = Slice(ofIPs: bool, endpoints: seq<Endpoint>)

  ghost predicate Shown(hosts: seq<Host>, deleting: bool, ip: nat) {
    exists h | h in hosts :: h.deleting == deleting && Some(ip) in h.addresses
  }

  /** A Machine that stays reports the address, and none that is being deleted does. */
  ghost predicate Ours(hosts: seq<Host>, ip: nat) {
    Shown(hosts, false, ip) && !Shown(hosts, true, ip)
  }

  /** The addresses the Machines that are, or are not, being deleted report. */
  ghost predicate Collected(s: set<nat>, hosts: seq<Host>, deleting: bool) {
    forall ip: nat :: ip in s <==> Shown(hosts, deleting, ip)
  }

  method AddressesOf(h: Host) returns (s: set<nat>)
    ensures forall ip :: ip in s <==> Some(ip) in h.addresses
  {
    s := {};
    for i := 0 to |h.addresses|
      invariant forall ip :: ip in s <==> Some(ip) in h.addresses[..i]
    {
      assert h.addresses[..i + 1] == h.addresses[..i] + [h.addresses[i]];
      if h.addresses[i].Some? {
        s := s + {h.addresses[i].value};
      }
    }
    assert h.addresses[..|h.addresses|] == h.addresses;
  }

  lemma CollectOne(s: set<nat>, hosts: seq<Host>, h: Host, more: set<nat>, deleting: bool)
    requires Collected(s, hosts, deleting) && forall ip :: ip in more <==> Some(ip) in h.addresses
    ensures Collected(if h.deleting == deleting then s + more else s, hosts + [h], deleting)
  {
    assert h in hosts + [h];
    forall ip: nat | Shown(hosts, deleting, ip)
      ensures Shown(hosts + [h], deleting, ip)
    {
      var x :| x in hosts && x.deleting == deleting && Some(ip) in x.addresses;
      assert x in hosts + [h];
    }
  }

  /** ownMemberAddresses: those of Machines that stay, minus those of Machines that go. */
  method OwnMemberAddresses(hosts: seq<Host>) returns (ours: set<nat>)
    ensures forall ip :: ip in ours <==> Ours(hosts, ip)
  {
    var live: set<nat>, leaving: set<nat> := {}, {};
    for i := 0 to |hosts|
      invariant Collected(live, hosts[..i], false) && Collected(leaving, hosts[..i], true)
    {
      var more := AddressesOf(hosts[i]);
      assert hosts[..i + 1] == hosts[..i] + [hosts[i]];
      CollectOne(live, hosts[..i], hosts[i], more, false);
      CollectOne(leaving, hosts[..i], hosts[i], more, true);
      if hosts[i].deleting {
        leaving := leaving + more;
      } else {
        live := live + more;
      }
    }
    assert hosts[..|hosts|] == hosts;
    ours := live - leaving;
  }

  ghost predicate Increasing(s: seq<nat>) {
    forall i, j | 0 <= i < j < |s| :: s[i] < s[j]
  }

  function Insert(x: nat, s: seq<nat>): (r: seq<nat>)
    requires Increasing(s) && x !in s
    ensures Increasing(r) && forall y :: y in r <==> y == x || y in s
  {
    if s == [] || x < s[0] then [x] + s
    else
      assert forall y | y in s[1..] :: s[0] < y;
      var t := Insert(x, s[1..]);
      assert forall i | 0 < i < |[s[0]] + t| :: ([s[0]] + t)[i] in t;
      [s[0]] + t
  }

  /** A ready endpoint that is not terminating lists the address, and it is one to dial. */
  ghost predicate Listed(endpoints: seq<Endpoint>, ip: nat) {
    exists e | e in endpoints :: e.ready != Some(false) && e.terminating != Some(true) && Some(ip) in e.addresses
  }

  predicate Serves(e: Endpoint) {
    e.ready != Some(false) && e.terminating != Some(true)
  }

  /** The addresses of one endpoint, sorted in among those found so far. */
  method Scan(e: Endpoint, usable: nat -> bool, ours: set<nat>, seen0: set<nat>, ips0: seq<nat>)
    returns (seen: set<nat>, ips: seq<nat>)
    requires Increasing(ips0) && forall ip :: ip in ips0 <==> ip in seen0 && ip in ours
    ensures Increasing(ips) && forall ip :: ip in ips <==> ip in seen && ip in ours
    ensures forall ip :: ip in seen <==> ip in seen0 || (usable(ip) && Some(ip) in e.addresses)
  {
    seen, ips := seen0, ips0;
    for i := 0 to |e.addresses|
      invariant Increasing(ips) && forall ip :: ip in ips <==> ip in seen && ip in ours
      invariant forall ip :: ip in seen <==> ip in seen0 || (usable(ip) && Some(ip) in e.addresses[..i])
    {
      assert e.addresses[..i + 1] == e.addresses[..i] + [e.addresses[i]];
      var a := e.addresses[i];
      if a.Some? && usable(a.value) && a.value !in seen {
        seen := seen + {a.value};
        if a.value in ours {
          ips := Insert(a.value, ips);
        }
      }
    }
    assert e.addresses[..|e.addresses|] == e.addresses;
  }

  /** liveK0sJoinServers: exactly the addresses kube-apiserver lists as live that are a staying
      Machine's and no leaving one's, lowest first; `unmatched` counts the others listed. A
      missing slice, or one of another address type, names none. `usable` leaves out loopback,
      unspecified and multicast addresses. */
  method LiveK0sJoinServers(slice: Option<Slice>, hosts: seq<Host>, usable: nat -> bool)
    returns (urls: seq<nat>, unmatched: nat)
    ensures Increasing(urls)
    ensures forall ip :: ip in urls <==>
              slice.Some? && slice.value.ofIPs && Listed(slice.value.endpoints, ip) && usable(ip) && Ours(hosts, ip)
    ensures unmatched > 0 <==>
              slice.Some? && slice.value.ofIPs && exists ip :: Listed(slice.value.endpoints, ip) && usable(ip) && !Ours(hosts, ip)
  {
    var ours := OwnMemberAddresses(hosts);
    if slice.None? || !slice.value.ofIPs {
      return [], 0;
    }
    var eps := slice.value.endpoints;
    var seen: set<nat> := {};
    urls := [];
    for i := 0 to |eps|
      invariant Increasing(urls) && forall ip :: ip in urls <==> ip in seen && ip in ours
      invariant forall ip :: ip in seen <==> usable(ip) && Listed(eps[..i], ip)
    {
      ghost var before := seen;
      assert eps[..i + 1] == eps[..i] + [eps[i]];
      ListedOneMore(eps[..i], eps[i]);
      if Serves(eps[i]) {
        seen, urls := Scan(eps[i], usable, ours, seen, urls);
      }
    }
    assert eps[..|eps|] == eps;
    unmatched := |seen - ours|;
    if exists ip :: ip in seen && ip !in ours {
      ghost var ip :| ip in seen && ip !in ours;
      assert ip in seen - ours;
    } else {
      assert seen - ours == {};
    }
  }

  lemma ListedOneMore(eps: seq<Endpoint>, e: Endpoint)
    ensures forall ip: nat :: Listed(eps + [e], ip) <==> Listed(eps, ip) || (Serves(e) && Some(ip) in e.addresses)
  {
    assert e in eps + [e];
    forall ip: nat | Listed(eps, ip)
      ensures Listed(eps + [e], ip)
    {
      var x :| x in eps && x.ready != Some(false) && x.terminating != Some(true) && Some(ip) in x.addresses;
      assert x in eps + [e];
    }
  }
}
