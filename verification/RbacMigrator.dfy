/**
 The narrowing of node-push Roles (internal/controllers/bootstrap/rbac_migrator.go):
 an existing Role's rules are intersected with a ceiling, and the Role the resolver
 writes (management_endpoint_resolver.go) is a fixed point of that.

 `Allows` is the Kubernetes RBAC decision on one request, the independent meaning the
 rewrite is judged by.
 */
module RbacMigrator {

  datatype PolicyRule = PolicyRule(groups: seq<string>, resources: seq<string>, names: seq<string>, verbs: seq<string>)

  /** One request; a request that names no object has name "". */
  datatype Request = Request(group: string, resource: string, name: string, verb: string)

  const ANY := "*"

  /** ruleHas: membership with the wildcard honoured. */
  predicate RuleHas(list: seq<string>, want: string) {
    want in list || ANY in list
  }

  /** The RBAC authorizer on one rule: empty resourceNames cover every name, and a "*"
      in the names covers nothing. */
  ghost predicate RuleAllows(r: PolicyRule, q: Request) {
    && (q.group in r.groups || "*" in r.groups)
    && (q.resource in r.resources || "*" in r.resources)
    && (r.names == [] || q.name in r.names)
    && (q.verb in r.verbs || "*" in r.verbs)
  }

  ghost predicate Allows(rules: seq<PolicyRule>, q: Request) {
    exists r | r in rules :: RuleAllows(r, q)
  }

  // ---- the ceiling and the resolver's own rules ----

  function KubeconfigPushSecretName(cluster: string): string {
    cluster + "-kubeconfig-push"
  }

  function EtcdStatusSecretName(cluster: string): string {
    cluster + "-etcd-status"
  }

  const GET_VMI := PolicyRule(["kubevirt.io"], ["virtualmachineinstances"], [], ["get"])

  function PatchSecrets(names: seq<string>): PolicyRule {
    PolicyRule([""], ["secrets"], names, ["patch"])
  }

  function NodePushSecrets(cluster: string): seq<string> {
    [KubeconfigPushSecretName(cluster), EtcdStatusSecretName(cluster)]
  }

  /** nodePushAllowedRules: nothing outside these may survive. */
  function NodePushAllowedRules(cluster: string): seq<PolicyRule> {
    [PatchSecrets(NodePushSecrets(cluster)), GET_VMI]
  }

  /** The rules Resolve writes; `vmi` is its config check for the KubeVirt query. */
  function ResolverRules(cluster: string, vmi: bool): seq<PolicyRule> {
    [PatchSecrets(NodePushSecrets(cluster))] + if vmi then [GET_VMI] else []
  }

  // ---- what the old rules grant ----

  /** A rule grantedVerbs looks into; name "" asks about rules for all names only. */
  predicate Covers(r: PolicyRule, group: string, resource: string, name: string) {
    && RuleHas(r.groups, group)
    && RuleHas(r.resources, resource)
    && (r.names == [] || (name != "" && name in r.names))
  }

  predicate Grants(prior: seq<PolicyRule>, group: string, resource: string, name: string, verb: string) {
    exists r | r in prior :: Covers(r, group, resource, name) && RuleHas(r.verbs, verb)
  }

  method GrantedVerbs(prior: seq<PolicyRule>, group: string, resource: string, name: string) returns (granted: set<string>)
    ensures forall v :: v in granted <==> exists r | r in prior :: Covers(r, group, resource, name) && v in r.verbs
  {
    granted := {};
    for i := 0 to |prior|
      invariant forall v :: v in granted <==> exists k | 0 <= k < i :: Covers(prior[k], group, resource, name) && v in prior[k].verbs
    {
      var r := prior[i];
      if !RuleHas(r.groups, group) {
        continue;
      }
      if !RuleHas(r.resources, resource) {
        continue;
      }
      if name == "" {
        if |r.names| != 0 {
          continue;
        }
      } else if |r.names| != 0 && name !in r.names {
        continue;
      }
      ghost var before := granted;
      for j := 0 to |r.verbs|
        invariant forall v :: v in granted <==> v in before || v in r.verbs[..j]
      {
        granted := granted + {r.verbs[j]};
      }
    }
  }

  method IntersectVerbs(allowed: seq<string>, granted: set<string>) returns (kept: seq<string>)
    ensures forall v :: v in kept <==> v in allowed && (v in granted || ANY in granted)
    ensures |allowed| == 1 ==> kept == if allowed[0] in granted || ANY in granted then allowed else []
  {
    kept := [];
    for i := 0 to |allowed|
      invariant i == 1 ==> kept == if allowed[0] in granted || ANY in granted then [allowed[0]] else []
      invariant i == 0 ==> kept == []
      invariant forall v :: v in kept <==> v in allowed[..i] && (v in granted || ANY in granted)
    {
      if allowed[i] in granted || ANY in granted {
        kept := kept + [allowed[i]];
      }
    }
  }

  // ---- verb sets as bucket keys: strings.Join and strings.Split on a comma ----

  function Join(parts: seq<string>): string {
    if parts == [] then "" else if |parts| == 1 then parts[0] else parts[0] + [','] + Join(parts[1..])
  }

  function Split(s: string): (parts: seq<string>)
    ensures parts != []
  {
    if s == "" then [""]
    else if s[0] == ',' then [""] + Split(s[1..])
    else var rest := Split(s[1..]); [[s[0]] + rest[0]] + rest[1..]
  }

  lemma {:induction false} SplitAfterPart(p: string, rest: string)
    requires ',' !in p
    ensures Split(p + [','] + rest) == [p] + Split(rest)
  {
    var s := p + [','] + rest;
    if p == "" {
      assert s[1..] == rest;
    } else {
      assert s[1..] == p[1..] + [','] + rest;
      SplitAfterPart(p[1..], rest);
      assert [p[0]] + p[1..] == p;
    }
  }

  lemma {:induction false} SplitWhole(p: string)
    requires ',' !in p
    ensures Split(p) == [p]
  {
    if p != "" {
      SplitWhole(p[1..]);
      assert [p[0]] + p[1..] == p;
    }
  }

  /** A key gives its verb list back. */
  lemma {:induction false} SplitJoin(parts: seq<string>)
    requires parts != [] && forall p | p in parts :: ',' !in p
    ensures Split(Join(parts)) == parts
  {
    if |parts| == 1 {
      SplitWhole(parts[0]);
    } else {
      SplitJoin(parts[1..]);
      SplitAfterPart(parts[0], Join(parts[1..]));
    }
  }

  // ---- the intersection ----

  /** The names of a ceiling rule whose one verb the old rules grant. */
  function KeptNames(prior: seq<PolicyRule>, a: PolicyRule, names: seq<string>): (kept: seq<string>)
    requires |a.groups| == |a.resources| == |a.verbs| == 1
    ensures forall n :: n in kept <==> n in names && Grants(prior, a.groups[0], a.resources[0], n, a.verbs[0])
  {
    if names == [] then []
    else
      var last := names[|names| - 1];
      KeptNames(prior, a, names[..|names| - 1]) +
      if Grants(prior, a.groups[0], a.resources[0], last, a.verbs[0]) then [last] else []
  }

  /** What is left of one ceiling rule. */
  function KeptRule(prior: seq<PolicyRule>, a: PolicyRule): seq<PolicyRule>
    requires |a.groups| == |a.resources| == |a.verbs| == 1
  {
    if a.names == [] then
      if Grants(prior, a.groups[0], a.resources[0], "", a.verbs[0]) then [a] else []
    else
      var names := KeptNames(prior, a, a.names);
      if names == [] then [] else [a.(names := names)]
  }

  /** The migrated rules, said directly. */
  function Narrowed(prior: seq<PolicyRule>, cluster: string): seq<PolicyRule> {
    var allowed := NodePushAllowedRules(cluster);
    KeptRule(prior, allowed[0]) + KeptRule(prior, allowed[1])
  }

  /** The verbs of `a` that survive for one name. */
  method SurvivingVerbs(prior: seq<PolicyRule>, a: PolicyRule, name: string) returns (kept: seq<string>)
    requires |a.groups| == |a.resources| == |a.verbs| == 1
    ensures kept == if Grants(prior, a.groups[0], a.resources[0], name, a.verbs[0]) then a.verbs else []
  {
    var granted := GrantedVerbs(prior, a.groups[0], a.resources[0], name);
    kept := IntersectVerbs(a.verbs, granted);
    assert a.verbs[0] in granted || ANY in granted <==> Grants(prior, a.groups[0], a.resources[0], name, a.verbs[0]);
  }

  /** The buckets and their order while the names of a one-verb rule are collected. */
  ghost predicate Bucketed(order: seq<string>, buckets: map<string, seq<string>>, key: string, names: seq<string>) {
    if names == [] then order == [] && buckets == map[] else order == [key] && buckets == map[key := names]
  }

  /** Adds one name to the bucket of its verb set. */
  method AddToBucket(order: seq<string>, buckets: map<string, seq<string>>, k: string, name: string, ghost names: seq<string>)
    returns (order': seq<string>, buckets': map<string, seq<string>>)
    requires Bucketed(order, buckets, k, names)
    ensures Bucketed(order', buckets', k, names + [name])
  {
    order', buckets' := order, buckets;
    if k !in buckets {
      order' := order' + [k];
      buckets' := buckets'[k := []];
    }
    buckets' := buckets'[k := buckets'[k] + [name]];
    assert buckets' == map[k := names + [name]];
  }

  /** A named ceiling rule: its names are collected in buckets by surviving verb set. */
  method IntersectNamed(prior: seq<PolicyRule>, a: PolicyRule) returns (out: seq<PolicyRule>)
    requires |a.groups| == |a.resources| == |a.verbs| == 1 && a.names != [] && ',' !in a.verbs[0]
    ensures out == KeptRule(prior, a)
  {
    var buckets: map<string, seq<string>> := map[];
    var order: seq<string> := [];
    ghost var names: seq<string> := [];
    for i := 0 to |a.names|
      invariant names == KeptNames(prior, a, a.names[..i])
      invariant Bucketed(order, buckets, Join(a.verbs), names)
    {
      KeptNamesSnoc(prior, a, a.names, i);
      var kept := SurvivingVerbs(prior, a, a.names[i]);
      if |kept| == 0 {
        continue;
      }
      order, buckets := AddToBucket(order, buckets, Join(kept), a.names[i], names);
      names := names + [a.names[i]];
    }
    assert a.names[..|a.names|] == a.names;
    SplitJoin(a.verbs);
    assert [a.groups[0]] == a.groups && [a.resources[0]] == a.resources;
    out := [];
    for i := 0 to |order|
      invariant out == if i == 0 then [] else [a.(names := names)]
    {
      out := out + [PolicyRule([a.groups[0]], [a.resources[0]], buckets[order[i]], Split(order[i]))];
    }
  }

  lemma KeptNamesSnoc(prior: seq<PolicyRule>, a: PolicyRule, names: seq<string>, i: nat)
    requires |a.groups| == |a.resources| == |a.verbs| == 1 && i < |names|
    ensures KeptNames(prior, a, names[..i + 1]) == KeptNames(prior, a, names[..i]) +
              if Grants(prior, a.groups[0], a.resources[0], names[i], a.verbs[0]) then [names[i]] else []
  {
    assert names[..i + 1][..i] == names[..i];
  }

  method IntersectNodePushRules(prior: seq<PolicyRule>, cluster: string) returns (out: seq<PolicyRule>)
    ensures out == Narrowed(prior, cluster)
  {
    out := [];
    var allowed := NodePushAllowedRules(cluster);
    for i := 0 to |allowed|
      invariant out == (if i >= 1 then KeptRule(prior, allowed[0]) else []) +
                       (if i >= 2 then KeptRule(prior, allowed[1]) else [])
    {
      var a := allowed[i];
      if |a.names| == 0 {
        var kept := SurvivingVerbs(prior, a, "");
        if |kept| > 0 {
          out := out + [PolicyRule([a.groups[0]], [a.resources[0]], [], kept)];
        }
        continue;
      }
      var named := IntersectNamed(prior, a);
      out := out + named;
    }
  }

  // ---- properties ----

  ghost predicate IsSecretPatch(cluster: string, q: Request) {
    && q.group == "" && q.resource == "secrets" && q.verb == "patch"
    && (q.name == cluster + "-kubeconfig-push" || q.name == cluster + "-etcd-status")
  }

  ghost predicate IsVmiGet(q: Request) {
    q.group == "kubevirt.io" && q.resource == "virtualmachineinstances" && q.verb == "get"
  }

  lemma CeilingMeaning(cluster: string, q: Request)
    ensures Allows(NodePushAllowedRules(cluster), q) <==> IsSecretPatch(cluster, q) || IsVmiGet(q)
  {
    var rules := NodePushAllowedRules(cluster);
    assert rules[0] in rules && rules[1] in rules;
    if IsSecretPatch(cluster, q) {
      assert RuleAllows(rules[0], q);
    }
    if IsVmiGet(q) {
      assert RuleAllows(rules[1], q);
    }
  }

  /** A secret of the ceiling is never the unnamed object, so what the migrator reads of the
      prior rules is exactly what they allow. */
  lemma GrantsIsAllows(prior: seq<PolicyRule>, group: string, resource: string, name: string, verb: string)
    requires name != ""
    ensures Grants(prior, group, resource, name, verb) <==> Allows(prior, Request(group, resource, name, verb))
  {
    var q := Request(group, resource, name, verb);
    forall r | r in prior
      ensures RuleAllows(r, q) <==> Covers(r, group, resource, name) && RuleHas(r.verbs, verb)
    {
    }
  }

  /** Exactly what the migrated Role allows. */
  lemma NarrowedAllows(prior: seq<PolicyRule>, cluster: string, q: Request)
    ensures Allows(Narrowed(prior, cluster), q) <==>
            (IsSecretPatch(cluster, q) && Allows(prior, q)) ||
            (IsVmiGet(q) && Grants(prior, q.group, q.resource, "", q.verb))
  {
    var allowed := NodePushAllowedRules(cluster);
    var secrets, vmi := KeptRule(prior, allowed[0]), KeptRule(prior, allowed[1]);
    var out := Narrowed(prior, cluster);
    assert Allows(out, q) <==> Allows(secrets, q) || Allows(vmi, q) by {
      forall r | r in out
        ensures r in secrets || r in vmi
      {
      }
    }
    assert Allows(vmi, q) <==> IsVmiGet(q) && Grants(prior, q.group, q.resource, "", q.verb) by {
      if vmi != [] {
        assert vmi[0] in vmi;
      }
    }
    var names := KeptNames(prior, allowed[0], NodePushSecrets(cluster));
    assert Allows(secrets, q) <==> IsSecretPatch(cluster, q) && q.name in names by {
      if secrets != [] {
        assert secrets[0] in secrets;
      }
    }
    if IsSecretPatch(cluster, q) {
      GrantsIsAllows(prior, q.group, q.resource, q.name, q.verb);
    }
  }

  /** The migrated Role never allows what the old rules or the ceiling refuse. */
  lemma NeverBroadens(prior: seq<PolicyRule>, cluster: string, q: Request)
    requires Allows(Narrowed(prior, cluster), q)
    ensures Allows(prior, q) && Allows(NodePushAllowedRules(cluster), q)
  {
    NarrowedAllows(prior, cluster, q);
    CeilingMeaning(cluster, q);
    if IsVmiGet(q) && Grants(prior, q.group, q.resource, "", q.verb) {
      var r :| r in prior && Covers(r, q.group, q.resource, "") && RuleHas(r.verbs, q.verb);
      assert RuleAllows(r, q);
    }
  }

  /** Patching a named Secret survives exactly when the old rules granted it, wildcards and
      rules without resourceNames included. */
  lemma SecretPatchKept(prior: seq<PolicyRule>, cluster: string, name: string)
    requires name == cluster + "-kubeconfig-push" || name == cluster + "-etcd-status"
    ensures Allows(Narrowed(prior, cluster), Request("", "secrets", name, "patch")) <==>
            Allows(prior, Request("", "secrets", name, "patch"))
  {
    NarrowedAllows(prior, cluster, Request("", "secrets", name, "patch"));
  }

  /** Where the result is the whole intersection and where it is less. A Role that grants the
      VMI get only on listed names loses it; nothing else of the intersection is ever lost. */
  lemma IntersectionExactWhen(prior: seq<PolicyRule>, cluster: string)
    ensures (forall q :: Allows(Narrowed(prior, cluster), q) <==> Allows(prior, q) && Allows(NodePushAllowedRules(cluster), q))
       <==> ((exists r, n | r in prior && n in r.names :: RuleAllows(r, Request("kubevirt.io", "virtualmachineinstances", n, "get")))
             ==> Grants(prior, "kubevirt.io", "virtualmachineinstances", "", "get"))
  {
    forall q
      ensures Allows(Narrowed(prior, cluster), q) <==>
              (IsSecretPatch(cluster, q) && Allows(prior, q)) || (IsVmiGet(q) && Grants(prior, q.group, q.resource, "", q.verb))
      ensures Allows(NodePushAllowedRules(cluster), q) <==> IsSecretPatch(cluster, q) || IsVmiGet(q)
    {
      NarrowedAllows(prior, cluster, q);
      CeilingMeaning(cluster, q);
    }
    var vmiNamed := exists r, n | r in prior && n in r.names :: RuleAllows(r, Request("kubevirt.io", "virtualmachineinstances", n, "get"));
    var vmiAll := Grants(prior, "kubevirt.io", "virtualmachineinstances", "", "get");
    if vmiNamed && !vmiAll {
      var r, n :| r in prior && n in r.names && RuleAllows(r, Request("kubevirt.io", "virtualmachineinstances", n, "get"));
      var q := Request("kubevirt.io", "virtualmachineinstances", n, "get");
      assert Allows(prior, q) && IsVmiGet(q) && !IsSecretPatch(cluster, q);
      assert !Allows(Narrowed(prior, cluster), q);
    } else {
      forall q
        ensures Allows(Narrowed(prior, cluster), q) <==> Allows(prior, q) && Allows(NodePushAllowedRules(cluster), q)
      {
        if IsVmiGet(q) && Allows(prior, q) {
          var r :| r in prior && RuleAllows(r, q);
          if r.names == [] {
            assert Covers(r, q.group, q.resource, "");
          } else {
            assert q.name in r.names && RuleAllows(r, Request("kubevirt.io", "virtualmachineinstances", q.name, "get"));
          }
        }
        if Allows(Narrowed(prior, cluster), q) {
          NeverBroadens(prior, cluster, q);
        }
      }
    }
  }

  /** The rules the resolver writes are already narrow: rewriting leaves them as they are. */
  lemma ResolverRulesFixed(cluster: string, vmi: bool)
    ensures Narrowed(ResolverRules(cluster, vmi), cluster) == ResolverRules(cluster, vmi)
  {
    var rules := ResolverRules(cluster, vmi);
    var a := NodePushAllowedRules(cluster)[0];
    assert rules[0] in rules;
    forall n | n in NodePushSecrets(cluster)
      ensures Grants(rules, "", "secrets", n, "patch")
    {
      assert n != "";
      assert Covers(rules[0], "", "secrets", n);
    }
    KeptNamesAll(rules, a, NodePushSecrets(cluster));
    if vmi {
      assert rules[1] in rules && Covers(rules[1], "kubevirt.io", "virtualmachineinstances", "");
    }
  }

  lemma {:induction false} KeptNamesAll(prior: seq<PolicyRule>, a: PolicyRule, names: seq<string>)
    requires |a.groups| == |a.resources| == |a.verbs| == 1
    requires forall n | n in names :: Grants(prior, a.groups[0], a.resources[0], n, a.verbs[0])
    ensures KeptNames(prior, a, names) == names
  {
    if names != [] {
      var init, last := names[..|names| - 1], names[|names| - 1];
      assert names == init + [last];
      assert last in names;
      KeptNamesAll(prior, a, init);
    }
  }

  lemma {:induction false} KeptNamesSame(prior: seq<PolicyRule>, other: seq<PolicyRule>, a: PolicyRule, names: seq<string>)
    requires |a.groups| == |a.resources| == |a.verbs| == 1
    requires forall n | n in names ::
               Grants(prior, a.groups[0], a.resources[0], n, a.verbs[0]) <==> Grants(other, a.groups[0], a.resources[0], n, a.verbs[0])
    ensures KeptNames(prior, a, names) == KeptNames(other, a, names)
  {
    if names != [] {
      assert names[|names| - 1] in names;
      KeptNamesSame(prior, other, a, names[..|names| - 1]);
    }
  }

  /** Migrating twice is migrating once. */
  lemma NarrowedIdempotent(prior: seq<PolicyRule>, cluster: string)
    ensures Narrowed(Narrowed(prior, cluster), cluster) == Narrowed(prior, cluster)
  {
    var out := Narrowed(prior, cluster);
    var allowed := NodePushAllowedRules(cluster);
    forall n | n in NodePushSecrets(cluster)
      ensures Grants(out, "", "secrets", n, "patch") <==> Grants(prior, "", "secrets", n, "patch")
    {
      SecretPatchKept(prior, cluster, n);
      GrantsIsAllows(prior, "", "secrets", n, "patch");
      GrantsIsAllows(out, "", "secrets", n, "patch");
    }
    KeptNamesSame(out, prior, allowed[0], NodePushSecrets(cluster));
    var vmi := KeptRule(prior, allowed[1]);
    if vmi != [] {
      assert out[|out| - 1] == GET_VMI;
      assert Covers(GET_VMI, "kubevirt.io", "virtualmachineinstances", "");
    } else {
      assert !Grants(out, "kubevirt.io", "virtualmachineinstances", "", "get");
    }
  }
}
