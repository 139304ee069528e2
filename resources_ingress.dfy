/**
 * The shared ingress `kyverno-ingress`: one object co-owned by every tenant
 * that uses the same ingress host, each tenant owning the path derived from
 * its normalized workspace name.
 */
module IngressResource {
  import opened Wrappers
  import opened Objects
  import opened Api
  import opened Store

  const IngressName := "kyverno-ingress"
  const PathSuffix := "(/|$)(.*)"

  function Host(cr: PolicyControl): string { cr.spec.policyControlCluster.ingressHost }

  /** getPath: the tenant's path, `/<normalized workspace>(/|$)(.*)`. */
  function GetPath(cr: PolicyControl, b: Builders): string {
    "/" + b.normalize(cr) + PathSuffix
  }

  /** Tenants with different normalized names never get the same path. */
  lemma GetPathSeparatesTenants(cr1: PolicyControl, cr2: PolicyControl, b: Builders)
    ensures GetPath(cr1, b) == GetPath(cr2, b) <==> b.normalize(cr1) == b.normalize(cr2)
  {
    var n1, n2 := b.normalize(cr1), b.normalize(cr2);
    if GetPath(cr1, b) == GetPath(cr2, b) {
      assert |n1| == |n2|;
      assert n1 == GetPath(cr1, b)[1..1 + |n1|];
      assert n2 == GetPath(cr2, b)[1..1 + |n2|];
    }
  }

  /** buildIngressHTTPIngressPath: a Prefix path routed to the tenant's service. */
  function BuildIngressHTTPIngressPath(cr: PolicyControl, b: Builders, path: string): HTTPIngressPath {
    HTTPIngressPath(path, Prefix, ServiceBackend(b.normalize(cr), cr.spec.policyControlCluster.ingressPort))
  }

  /** BuildIngressForKyverno: a fresh shared ingress holding only this tenant's route. */
  function BuildIngressForKyverno(cr: PolicyControl, b: Builders): Ingress {
    var ingressPath := BuildIngressHTTPIngressPath(cr, b, GetPath(cr, b));
    Ingress(
      Meta(cr.spec.policyControlCluster.namespace, IngressName, map[],
           map["nginx.ingress.kubernetes.io/backend-protocol" := "HTTPS",
               "nginx.ingress.kubernetes.io/rewrite-target" := "/$2"],
           None),
      IngressSpec(
        "nginx",
        [IngressTLS([Host(cr)], IngressName)],
        [IngressRule(Host(cr), [ingressPath])]))
  }

  lemma BuildIngressShape(cr: PolicyControl, b: Builders)
    ensures var ing := BuildIngressForKyverno(cr, b);
      && ing.meta.name == IngressName
      && ing.meta.namespace == cr.spec.policyControlCluster.namespace
      && ing.meta.annotations == map["nginx.ingress.kubernetes.io/backend-protocol" := "HTTPS",
                                     "nginx.ingress.kubernetes.io/rewrite-target" := "/$2"]
      && ing.spec.className == "nginx"
      && ing.spec.tls == [IngressTLS([Host(cr)], IngressName)]
      && |ing.spec.rules| == 1
      && ing.spec.rules[0].host == Host(cr)
      && ing.spec.rules[0].paths == [BuildIngressHTTPIngressPath(cr, b, GetPath(cr, b))]
  {
  }

  /** The backend a tenant's path routes to: its own service on the ingress port, matched by prefix. */
  lemma BuiltPathRoutesToTenant(cr: PolicyControl, b: Builders, path: string)
    ensures var p := BuildIngressHTTPIngressPath(cr, b, path);
      && p.path == path
      && p.pathType == Prefix
      && p.backend.name == b.normalize(cr)
      && p.backend.port == cr.spec.policyControlCluster.ingressPort
  {
  }

  /**
   * The index of the last rule for `host`, or -1: where the first scan of
   * AddIngressRuleForKyverno leaves idxHost.
   */
  function LastHostIndex(rules: seq<IngressRule>, host: string): (k: int)
    ensures -1 <= k < |rules|
    ensures k >= 0 ==> rules[k].host == host
    ensures forall i :: k < i < |rules| ==> rules[i].host != host
    decreases |rules|
  {
    if rules == [] then -1
    else if rules[|rules| - 1].host == host then |rules| - 1
    else LastHostIndex(rules[..|rules| - 1], host)
  }

  /** Some rule for `host` (not necessarily the last) already routes `path`. */
  ghost predicate HasPathOnHost(rules: seq<IngressRule>, host: string, path: string) {
    exists i, j :: 0 <= i < |rules| && rules[i].host == host && 0 <= j < |rules[i].paths| && rules[i].paths[j].path == path
  }

  function AppendPath(ing: Ingress, k: nat, p: HTTPIngressPath): Ingress
    requires k < |ing.spec.rules|
  {
    var rule := ing.spec.rules[k];
    ing.(spec := ing.spec.(rules := ing.spec.rules[k := rule.(paths := rule.paths + [p])]))
  }

  /** What AddIngressRuleForKyverno returns. */
  ghost function Merge(cr: PolicyControl, b: Builders, ing: Ingress): Result<Ingress, Error> {
    var host, path := Host(cr), GetPath(cr, b);
    var k := LastHostIndex(ing.spec.rules, host);
    if k < 0 then Err(NoRouteTarget(host))
    else if HasPathOnHost(ing.spec.rules, host, path) then Ok(ing)
    else Ok(AppendPath(ing, k, BuildIngressHTTPIngressPath(cr, b, path)))
  }

  lemma HasPathOnPrefix(rules: seq<IngressRule>, i: nat, host: string, path: string)
    requires i < |rules|
    ensures HasPathOnHost(rules[..i + 1], host, path) <==>
      (HasPathOnHost(rules[..i], host, path) ||
       (rules[i].host == host && exists j :: 0 <= j < |rules[i].paths| && rules[i].paths[j].path == path))
  {
    var pre, pre1 := rules[..i], rules[..i + 1];
    if HasPathOnHost(pre1, host, path) {
      var x, y :| 0 <= x < |pre1| && pre1[x].host == host && 0 <= y < |pre1[x].paths| && pre1[x].paths[y].path == path;
      if x < i { assert pre[x] == pre1[x]; }
    }
    if HasPathOnHost(pre, host, path) {
      var x, y :| 0 <= x < |pre| && pre[x].host == host && 0 <= y < |pre[x].paths| && pre[x].paths[y].path == path;
      assert pre1[x] == pre[x];
    }
    if rules[i].host == host && exists j :: 0 <= j < |rules[i].paths| && rules[i].paths[j].path == path {
      var y :| 0 <= y < |rules[i].paths| && rules[i].paths[y].path == path;
      assert pre1[i] == rules[i];
    }
  }

  /**
   * AddIngressRuleForKyverno, with the source's two scans. The first scan
   * records the last rule for the host and, in idxPath, any matching path in
   * any rule for the host; idxPath is not reset before the second scan over
   * the last host rule, so a match in an earlier rule for the host counts.
   */
  method AddIngressRuleForKyverno(cr: PolicyControl, b: Builders, ingress: Ingress) returns (r: Result<Ingress, Error>)
    ensures r == Merge(cr, b, ingress)
  {
    var path := GetPath(cr, b);
    var host := Host(cr);
    var rules := ingress.spec.rules;
    var idxHost := -1;
    var idxPath := -1;
    var i := 0;
    while i < |rules|
      invariant 0 <= i <= |rules|
      invariant idxHost == LastHostIndex(rules[..i], host)
      invariant (idxPath != -1) == HasPathOnHost(rules[..i], host, path)
    {
      assert rules[..i + 1][..i] == rules[..i];
      HasPathOnPrefix(rules, i, host, path);
      if rules[i].host == host {
        idxHost := i;
        var paths := rules[i].paths;
        var j := 0;
        while j < |paths|
          invariant 0 <= j <= |paths|
          invariant (idxPath != -1) ==
            (HasPathOnHost(rules[..i], host, path) || exists j' :: 0 <= j' < j && paths[j'].path == path)
        {
          if paths[j].path == path {
            idxPath := j;
          }
          j := j + 1;
        }
      }
      i := i + 1;
    }
    assert rules[..i] == rules;
    if idxHost == -1 {
      return Err(NoRouteTarget(host));
    }
    var paths := rules[idxHost].paths;
    var j := 0;
    while j < |paths|
      invariant 0 <= j <= |paths|
      invariant (idxPath != -1) ==
        (HasPathOnHost(rules, host, path) || exists j' :: 0 <= j' < j && paths[j'].path == path)
    {
      if paths[j].path == path {
        idxPath := j;
      }
      j := j + 1;
    }
    if idxPath != -1 {
      return Ok(ingress);
    }
    var ingressPath := BuildIngressHTTPIngressPath(cr, b, path);
    return Ok(AppendPath(ingress, idxHost, ingressPath));
  }

  /** The merge fails exactly when no rule is for the host, with NoRouteTarget (resources/ingress.go:79-83). */
  lemma MergeFailsIffNoHost(cr: PolicyControl, b: Builders, ing: Ingress)
    ensures Merge(cr, b, ing).Err? <==> forall i :: 0 <= i < |ing.spec.rules| ==> ing.spec.rules[i].host != Host(cr)
    ensures Merge(cr, b, ing).Err? ==> Merge(cr, b, ing).error == NoRouteTarget(Host(cr))
  {
  }

  /** A tenant whose path is already routed by some rule for the host gets the ingress back unchanged. */
  lemma MergeKeepsExistingRoute(cr: PolicyControl, b: Builders, ing: Ingress)
    requires HasPathOnHost(ing.spec.rules, Host(cr), GetPath(cr, b))
    ensures Merge(cr, b, ing) == Ok(ing)
  {
  }

  /**
   * Otherwise exactly one path is appended, at the end of the LAST rule for
   * the host; every other rule, every earlier path and the rest of the
   * ingress are unchanged.
   */
  lemma MergeAppendsOnePath(cr: PolicyControl, b: Builders, ing: Ingress)
    requires exists i :: 0 <= i < |ing.spec.rules| && ing.spec.rules[i].host == Host(cr)
    requires !HasPathOnHost(ing.spec.rules, Host(cr), GetPath(cr, b))
    ensures Merge(cr, b, ing).Ok?
    ensures var r, rules, k := Merge(cr, b, ing).value, ing.spec.rules, LastHostIndex(ing.spec.rules, Host(cr));
      && 0 <= k < |rules|
      && (forall i :: k < i < |rules| ==> rules[i].host != Host(cr))
      && r.meta == ing.meta && r.spec.className == ing.spec.className && r.spec.tls == ing.spec.tls
      && |r.spec.rules| == |rules|
      && (forall i :: 0 <= i < |rules| && i != k ==> r.spec.rules[i] == rules[i])
      && r.spec.rules[k].host == Host(cr)
      && r.spec.rules[k].paths == rules[k].paths + [BuildIngressHTTPIngressPath(cr, b, GetPath(cr, b))]
  {
  }

  /** After a successful merge the host has a rule and the tenant's path is routed. */
  lemma MergeRoutesTenant(cr: PolicyControl, b: Builders, ing: Ingress)
    requires Merge(cr, b, ing).Ok?
    ensures var r := Merge(cr, b, ing).value;
      && LastHostIndex(r.spec.rules, Host(cr)) >= 0
      && HasPathOnHost(r.spec.rules, Host(cr), GetPath(cr, b))
  {
    var host, path := Host(cr), GetPath(cr, b);
    var k := LastHostIndex(ing.spec.rules, host);
    if !HasPathOnHost(ing.spec.rules, host, path) {
      var r := Merge(cr, b, ing).value;
      var n := |ing.spec.rules[k].paths|;
      assert r.spec.rules[k].paths[n].path == path;
      assert r.spec.rules[k].host == host;
    }
  }

  /** Merging into its own successful result changes nothing. */
  lemma MergeIdempotent(cr: PolicyControl, b: Builders, ing: Ingress)
    requires Merge(cr, b, ing).Ok?
    ensures Merge(cr, b, Merge(cr, b, ing).value) == Merge(cr, b, ing)
  {
    MergeRoutesTenant(cr, b, ing);
  }

  /** A freshly built ingress already routes the tenant: merging into it is a no-op. */
  lemma MergeIntoFreshIngress(cr: PolicyControl, b: Builders)
    ensures Merge(cr, b, BuildIngressForKyverno(cr, b)) == Ok(BuildIngressForKyverno(cr, b))
  {
    var ing := BuildIngressForKyverno(cr, b);
    assert ing.spec.rules[0].paths[0].path == GetPath(cr, b);
  }

  lemma {:induction false} LastHostIndexSameHosts(r1: seq<IngressRule>, r2: seq<IngressRule>, host: string)
    requires |r1| == |r2|
    requires forall i :: 0 <= i < |r1| ==> r1[i].host == r2[i].host
    ensures LastHostIndex(r1, host) == LastHostIndex(r2, host)
    decreases |r1|
  {
    if r1 != [] {
      LastHostIndexSameHosts(r1[..|r1| - 1], r2[..|r2| - 1], host);
    }
  }

  lemma HasPathAfterAppend(ing: Ingress, k: nat, e: HTTPIngressPath, host: string, path: string)
    requires k < |ing.spec.rules|
    ensures HasPathOnHost(AppendPath(ing, k, e).spec.rules, host, path) <==>
      HasPathOnHost(ing.spec.rules, host, path) || (ing.spec.rules[k].host == host && e.path == path)
  {
    var rules, rules' := ing.spec.rules, AppendPath(ing, k, e).spec.rules;
    var n := |rules[k].paths|;
    if HasPathOnHost(rules', host, path) {
      var i, j :| 0 <= i < |rules'| && rules'[i].host == host && 0 <= j < |rules'[i].paths| && rules'[i].paths[j].path == path;
      if i != k || j < n {
        assert rules[i].paths[j] == rules'[i].paths[j];
      }
    }
    if HasPathOnHost(rules, host, path) {
      var i, j :| 0 <= i < |rules| && rules[i].host == host && 0 <= j < |rules[i].paths| && rules[i].paths[j].path == path;
      assert rules'[i].paths[j] == rules[i].paths[j];
    }
    if ing.spec.rules[k].host == host && e.path == path {
      assert rules'[k].paths[n] == e;
    }
  }

  /** Two ingresses that differ at most in the order of each rule's paths. */
  ghost predicate SameUpToPathOrder(a: Ingress, c: Ingress) {
    && a.meta == c.meta && a.spec.className == c.spec.className && a.spec.tls == c.spec.tls
    && |a.spec.rules| == |c.spec.rules|
    && forall i :: 0 <= i < |a.spec.rules| ==>
         a.spec.rules[i].host == c.spec.rules[i].host && multiset(a.spec.rules[i].paths) == multiset(c.spec.rules[i].paths)
  }

  /** What a tenant's merge adds to the last host rule: its path, unless already routed. */
  ghost function Added(cr: PolicyControl, b: Builders, rules: seq<IngressRule>): seq<HTTPIngressPath> {
    if HasPathOnHost(rules, Host(cr), GetPath(cr, b)) then [] else [BuildIngressHTTPIngressPath(cr, b, GetPath(cr, b))]
  }

  /** Merging tenant A then tenant B (same host, distinct paths): the last host rule gains A's addition then B's. */
  lemma MergeTwice(crA: PolicyControl, crB: PolicyControl, b: Builders, ing: Ingress)
    requires Host(crA) == Host(crB)
    requires GetPath(crA, b) != GetPath(crB, b)
    requires Merge(crA, b, ing).Ok?
    ensures Merge(crB, b, Merge(crA, b, ing).value).Ok?
    ensures var r, rules, k := Merge(crB, b, Merge(crA, b, ing).value).value, ing.spec.rules, LastHostIndex(ing.spec.rules, Host(crA));
      && 0 <= k < |rules|
      && r.meta == ing.meta && r.spec.className == ing.spec.className && r.spec.tls == ing.spec.tls
      && |r.spec.rules| == |rules|
      && (forall i :: 0 <= i < |rules| && i != k ==> r.spec.rules[i] == rules[i])
      && r.spec.rules[k].host == rules[k].host
      && r.spec.rules[k].paths == rules[k].paths + Added(crA, b, rules) + Added(crB, b, rules)
  {
    var host, pB := Host(crA), GetPath(crB, b);
    var eA := BuildIngressHTTPIngressPath(crA, b, GetPath(crA, b));
    var rules := ing.spec.rules;
    var k := LastHostIndex(rules, host);
    var m := Merge(crA, b, ing).value;
    assert m == if HasPathOnHost(rules, host, GetPath(crA, b)) then ing else AppendPath(ing, k, eA);
    LastHostIndexSameHosts(rules, m.spec.rules, host);
    HasPathAfterAppend(ing, k, eA, host, pB);
    assert Added(crB, b, m.spec.rules) == Added(crB, b, rules);
  }

  /** After tenant A's merge then tenant B's (same host, distinct paths), both paths are routed. */
  lemma MergeTwiceRoutesBoth(crA: PolicyControl, crB: PolicyControl, b: Builders, ing: Ingress)
    requires Host(crA) == Host(crB)
    requires GetPath(crA, b) != GetPath(crB, b)
    requires Merge(crA, b, ing).Ok?
    ensures Merge(crB, b, Merge(crA, b, ing).value).Ok?
    ensures var r := Merge(crB, b, Merge(crA, b, ing).value).value;
      && HasPathOnHost(r.spec.rules, Host(crA), GetPath(crA, b))
      && HasPathOnHost(r.spec.rules, Host(crA), GetPath(crB, b))
  {
    var host, pB := Host(crA), GetPath(crB, b);
    var m := Merge(crA, b, ing).value;
    MergeTwice(crA, crB, b, ing);
    MergeRoutesTenant(crA, b, ing);
    MergeRoutesTenant(crB, b, m);
    var k := LastHostIndex(m.spec.rules, host);
    if !HasPathOnHost(m.spec.rules, host, pB) {
      HasPathAfterAppend(m, k, BuildIngressHTTPIngressPath(crB, b, pB), host, GetPath(crA, b));
    }
  }

  /**
   * Two tenants with distinct paths on the same host, merged in either
   * order: both paths end up routed, and the two results differ only in the
   * order of the paths.
   */
  lemma MergeOrderIrrelevant(cr1: PolicyControl, cr2: PolicyControl, b: Builders, ing: Ingress)
    requires Host(cr1) == Host(cr2)
    requires GetPath(cr1, b) != GetPath(cr2, b)
    requires Merge(cr1, b, ing).Ok?
    ensures Merge(cr2, b, ing).Ok?
    ensures Merge(cr2, b, Merge(cr1, b, ing).value).Ok? && Merge(cr1, b, Merge(cr2, b, ing).value).Ok?
    ensures var r12, r21 := Merge(cr2, b, Merge(cr1, b, ing).value).value, Merge(cr1, b, Merge(cr2, b, ing).value).value;
      && SameUpToPathOrder(r12, r21)
      && HasPathOnHost(r12.spec.rules, Host(cr1), GetPath(cr1, b)) && HasPathOnHost(r12.spec.rules, Host(cr1), GetPath(cr2, b))
      && HasPathOnHost(r21.spec.rules, Host(cr1), GetPath(cr1, b)) && HasPathOnHost(r21.spec.rules, Host(cr1), GetPath(cr2, b))
  {
    MergeTwice(cr1, cr2, b, ing);
    MergeTwice(cr2, cr1, b, ing);
    MergeTwiceRoutesBoth(cr1, cr2, b, ing);
    MergeTwiceRoutesBoth(cr2, cr1, b, ing);
    var rules := ing.spec.rules;
    var r12, r21 := Merge(cr2, b, Merge(cr1, b, ing).value).value, Merge(cr1, b, Merge(cr2, b, ing).value).value;
    SwappedAdditions(r12, r21, ing, LastHostIndex(rules, Host(cr1)), Added(cr1, b, rules), Added(cr2, b, rules));
  }

  /** Two ingresses that append the same additions to one rule of `ing`, in either order, differ only in path order. */
  lemma SwappedAdditions(a: Ingress, c: Ingress, ing: Ingress, k: int, q1: seq<HTTPIngressPath>, q2: seq<HTTPIngressPath>)
    requires 0 <= k < |ing.spec.rules|
    requires a.meta == ing.meta && a.spec.className == ing.spec.className && a.spec.tls == ing.spec.tls
    requires c.meta == ing.meta && c.spec.className == ing.spec.className && c.spec.tls == ing.spec.tls
    requires |a.spec.rules| == |ing.spec.rules| && |c.spec.rules| == |ing.spec.rules|
    requires forall i :: 0 <= i < |ing.spec.rules| && i != k ==> a.spec.rules[i] == ing.spec.rules[i]
    requires forall i :: 0 <= i < |ing.spec.rules| && i != k ==> c.spec.rules[i] == ing.spec.rules[i]
    requires a.spec.rules[k].host == ing.spec.rules[k].host && c.spec.rules[k].host == ing.spec.rules[k].host
    requires a.spec.rules[k].paths == ing.spec.rules[k].paths + q1 + q2
    requires c.spec.rules[k].paths == ing.spec.rules[k].paths + q2 + q1
    ensures SameUpToPathOrder(a, c)
  {
    var ps := ing.spec.rules[k].paths;
    assert multiset(ps + q1 + q2) == multiset(ps + q2 + q1);
  }

  /** No two routes for the host carry the same path. */
  ghost predicate UniqueRoutes(rules: seq<IngressRule>, host: string) {
    forall i, j, i', j' ::
      0 <= i < |rules| && 0 <= i' < |rules| && rules[i].host == host && rules[i'].host == host &&
      0 <= j < |rules[i].paths| && 0 <= j' < |rules[i'].paths| && (i, j) != (i', j')
      ==> rules[i].paths[j].path != rules[i'].paths[j'].path
  }

  /** The merge never introduces a second route for a path already routed on the host. */
  lemma MergeKeepsRoutesUnique(cr: PolicyControl, b: Builders, ing: Ingress)
    requires UniqueRoutes(ing.spec.rules, Host(cr))
    requires Merge(cr, b, ing).Ok?
    ensures UniqueRoutes(Merge(cr, b, ing).value.spec.rules, Host(cr))
  {
    var host, path := Host(cr), GetPath(cr, b);
    var rules := ing.spec.rules;
    if !HasPathOnHost(rules, host, path) {
      var k := LastHostIndex(rules, host);
      var rules' := Merge(cr, b, ing).value.spec.rules;
      var n := |rules[k].paths|;
      forall i, j, i', j' |
        0 <= i < |rules'| && 0 <= i' < |rules'| && rules'[i].host == host && rules'[i'].host == host &&
        0 <= j < |rules'[i].paths| && 0 <= j' < |rules'[i'].paths| && (i, j) != (i', j')
        ensures rules'[i].paths[j].path != rules'[i'].paths[j'].path
      {
        var old1 := i != k || j < n;
        var old2 := i' != k || j' < n;
        if old1 { assert rules'[i].paths[j] == rules[i].paths[j]; }
        if old2 { assert rules'[i'].paths[j'] == rules[i'].paths[j']; }
        if !old1 { assert rules'[i].paths[j].path == path; }
        if !old2 { assert rules'[i'].paths[j'].path == path; }
      }
    }
  }
}
