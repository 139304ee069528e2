/**
 * The workspace stage. Against the kcp workspace (`remote`): create-if-absent
 * the namespace for API resources, upsert every install manifest and then
 * the API-bindings manifest through the dynamic client (update failures
 * ignored), and create-if-absent the two TLS secrets copied from the
 * cluster's ingress TLS secret. Against the cluster the operator runs in
 * (`local`): read that TLS secret, create-if-absent the shared ingress's TLS
 * secret, create the shared ingress or merge the tenant's route into it,
 * then upsert the tenant's kubeconfig secret, service and deployment. The
 * first failure ends the stage; nothing is undone.
 */
module ProcessWorkspace {
  import opened Wrappers
  import opened Objects
  import opened Api
  import opened Store
  import opened Bridge
  import opened Converge
  import opened Helper
  import opened SecretResource
  import opened DeployResource
  import opened ServiceResource
  import opened IngressResource

  /** Both stores after a stage, and its outcome. */
  datatype Step2 = Step2(local: State, remote: State, out: Outcome<Error>)

  function APIResourcesNamespace(pc: PolicyControl): Obj {
    NamespaceObj(NamedMeta("", APINamespace(pc)))
  }

  /** Where the cluster's ingress TLS secret is read from. */
  function TLSSourceKey(pc: PolicyControl): Key {
    ObjectKey("secrets", ClusterNamespace(pc), pc.spec.policyControlCluster.ingressTLSSecret.name)
  }

  /** Where the shared ingress is stored. */
  function IngressKey(pc: PolicyControl): Key {
    ObjectKey("ingresses", ClusterNamespace(pc), IngressName)
  }

  /** The globbed install manifests, in order, then the API-bindings manifest. */
  function ManifestPaths(env: Env): seq<string> {
    env.manifestFiles + [env.apiBindingsManifest]
  }

  // ------------------------------------------------------------ workspace side

  /** The manifest loop: upsert each file with update errors ignored; the first failure ends it. */
  function ManifestLoop(s: State, env: Env, mapper: Mapper, paths: seq<string>): Step
    decreases |paths|
  {
    if paths == [] then Step(s, Pass)
    else
      var st := FileUpsert(s, env, mapper, paths[0], true);
      if st.out.Fail? then st else ManifestLoop(st.state, env, mapper, paths[1..])
  }

  /** The namespace for API resources, then every manifest. */
  function RemoteSetup(r: State, env: Env, pc: PolicyControl, mapper: Mapper): Step {
    var st := CreateIfAbsent(r, APIResourcesNamespace(pc));
    if st.out.Fail? then st else ManifestLoop(st.state, env, mapper, ManifestPaths(env))
  }

  // ------------------------------------------------------------- TLS secrets

  function PairSecret(pc: PolicyControl, tls: Obj): Obj {
    var t := pc.spec.policyControlCluster.ingressTLSSecret;
    BuildTLSKeyCertSecretForKyverno(pc, SecretValue(tls, t.keyForPrivKey), SecretValue(tls, t.keyForCert))
  }

  function CASecret(pc: PolicyControl, tls: Obj): Obj {
    BuildTLSCASecretForKyverno(pc, SecretValue(tls, pc.spec.policyControlCluster.ingressTLSSecret.keyForCacert))
  }

  function IngressSecret(pc: PolicyControl, tls: Obj): Obj {
    var t := pc.spec.policyControlCluster.ingressTLSSecret;
    BuildTLSKeyCertSecretForIngress(pc, SecretValue(tls, t.keyForPrivKey), SecretValue(tls, t.keyForCert))
  }

  /** Creating the ingress TLS secret when it is absent, as an operation. */
  function IngressSecretOp(pc: PolicyControl, tls: Obj): Op {
    Ensure(IngressSecret(pc, tls).Key(), IngressSecret(pc, tls))
  }

  /**
   * Read the TLS secret from the cluster, then create-if-absent the key-pair
   * and CA secrets in the workspace and the ingress TLS secret in the cluster.
   */
  function TLSCopy(l: State, r: State, pc: PolicyControl): Step2 {
    match GetResult(l, TLSSourceKey(pc))
    case Err(e) => Step2(l, r, Fail(e))
    case Ok(tls) =>
      var st1 := CreateIfAbsent(r, PairSecret(pc, tls));
      if st1.out.Fail? then Step2(l, st1.state, st1.out) else
      var st2 := CreateIfAbsent(st1.state, CASecret(pc, tls));
      if st2.out.Fail? then Step2(l, st2.state, st2.out) else
      var st3 := CreateIfAbsent(l, IngressSecret(pc, tls));
      Step2(st3.state, st2.state, st3.out)
  }

  // ----------------------------------------------------------------- ingress

  /**
   * A typed ingress read of a stored object. An ingress manifest the syncer
   * wrote through the dynamic client decodes too, its missing spec as the
   * empty one; an object of another kind does not decode.
   */
  function AsIngress(o: Obj): Option<Ingress> {
    match o
    case IngressObj(meta, spec) => Some(Ingress(meta, spec))
    case ManifestObj(meta, _, _, _, _, content, _) =>
      Some(Ingress(meta, if content.IngressContent? then content.spec else IngressSpec("", [], [])))
    case _ => None
  }

  function ReadIngress(s: State, k: Key): Option<Ingress> {
    match GetResult(s, k)
    case Err(_) => None
    case Ok(o) => AsIngress(o)
  }

  /**
   * Create the shared ingress when it cannot be read; otherwise update it
   * with the merge's result, whether or not the merge changed anything. A
   * failed merge leaves a nil ingress, and updating it panics.
   */
  ghost function IngressStep(s: State, pc: PolicyControl, b: Builders): Step {
    match ReadIngress(s, IngressKey(pc))
    case None => CreateStep(s, BuildIngressForKyverno(pc, b).AsObj())
    case Some(ing) =>
      match Merge(pc, b, ing)
      case Err(_) => Step(s, Fail(NilIngressPanic))
      case Ok(merged) => UpdateStep(s, merged.AsObj())
  }

  // ---------------------------------------------------------- tenant objects

  /** The kubeconfig secret, the service and the deployment, upserted in that order. */
  function TenantObjects(s: State, pc: PolicyControl, b: Builders, kc: string): Step {
    UpsertInOrder(s, BuildSecretForKyverno(pc, b, kc), BuildServiceForKyverno(pc, b), BuildDeploymentForKyverno(pc, b))
  }

  /** Three upserts in a row; the first failure ends the sequence. */
  function UpsertInOrder(s: State, o1: Obj, o2: Obj, o3: Obj): Step {
    var st1 := CreateOrUpdateStep(s, o1);
    if st1.out.Fail? then st1 else
    var st2 := CreateOrUpdateStep(st1.state, o2);
    if st2.out.Fail? then st2 else
    CreateOrUpdateStep(st2.state, o3)
  }

  /** The cluster side after the TLS secrets: ingress, kubeconfig, tenant objects. */
  ghost function LocalObjects(l: State, r: State, env: Env, pc: PolicyControl): Step2 {
    var st := IngressStep(l, pc, env.builders);
    if st.out.Fail? then Step2(st.state, r, st.out) else
    match env.kubeConfig
    case Err(e) => Step2(st.state, r, Fail(e))
    case Ok(kc) =>
      var t := TenantObjects(st.state, pc, env.builders, kc);
      Step2(t.state, r, t.out)
  }

  /** installKyvernoOnWorkspace. */
  ghost function WorkspaceStage(l: State, r: State, env: Env, pc: PolicyControl): Step2 {
    match env.workspaceMapper
    case Err(e) => Step2(l, r, Fail(e))
    case Ok(mapper) =>
      var st := RemoteSetup(r, env, pc, mapper);
      if st.out.Fail? then Step2(l, st.state, st.out) else
      var tc := TLSCopy(l, st.state, pc);
      if tc.out.Fail? then tc else LocalObjects(tc.local, tc.remote, env, pc)
  }

  // ---------------------------------------------------------------- methods

  method InstallManifests(remote: Cluster, env: Env, mapper: Mapper) returns (e: Outcome<Error>)
    modifies remote
    ensures Step(remote.Snapshot(), e) == ManifestLoop(old(remote.Snapshot()), env, mapper, ManifestPaths(env))
  {
    var files := env.manifestFiles;
    ghost var paths := ManifestPaths(env);
    ghost var s0 := remote.Snapshot();
    var i := 0;
    while i < |files|
      invariant 0 <= i <= |files|
      invariant ManifestLoop(s0, env, mapper, paths) == ManifestLoop(remote.Snapshot(), env, mapper, paths[i..])
    {
      assert paths[i..][0] == files[i] && paths[i..][1..] == paths[i + 1..];
      e := CreateOrUpdateUnstructuredResourceFromFile(remote, env, mapper, files[i], true);
      if e.Fail? {
        return;
      }
      i := i + 1;
    }
    assert paths[i..] == [env.apiBindingsManifest];
    e := CreateOrUpdateUnstructuredResourceFromFile(remote, env, mapper, env.apiBindingsManifest, true);
  }

  method EnsureIngressRoute(local: Cluster, pc: PolicyControl, b: Builders) returns (e: Outcome<Error>)
    modifies local
    ensures Step(local.Snapshot(), e) == IngressStep(old(local.Snapshot()), pc, b)
  {
    var got := local.Get(IngressKey(pc));
    var ingress := if got.Ok? then AsIngress(got.value) else None;
    if ingress.None? {
      e := local.Create(BuildIngressForKyverno(pc, b).AsObj());
      return;
    }
    var merged := AddIngressRuleForKyverno(pc, b, ingress.value);
    if merged.Err? {
      return Fail(NilIngressPanic);
    }
    e := local.Update(merged.value.AsObj());
  }

  method InstallKyvernoOnWorkspace(local: Cluster, remote: Cluster, env: Env, pc: PolicyControl) returns (e: Outcome<Error>)
    requires local != remote
    modifies local, remote
    ensures Step2(local.Snapshot(), remote.Snapshot(), e) == WorkspaceStage(old(local.Snapshot()), old(remote.Snapshot()), env, pc)
  {
    if env.workspaceMapper.Err? {
      return Fail(env.workspaceMapper.error);
    }
    var mapper := env.workspaceMapper.value;
    e := EnsureCreated(remote, APIResourcesNamespace(pc));
    if e.Fail? {
      return;
    }
    e := InstallManifests(remote, env, mapper);
    if e.Fail? {
      return;
    }
    ghost var l0, r0 := local.Snapshot(), remote.Snapshot();

    var tlsSecret := local.Get(TLSSourceKey(pc));
    if tlsSecret.Err? {
      return Fail(tlsSecret.error);
    }
    e := EnsureCreated(remote, PairSecret(pc, tlsSecret.value));
    if e.Fail? {
      return;
    }
    e := EnsureCreated(remote, CASecret(pc, tlsSecret.value));
    if e.Fail? {
      return;
    }
    e := EnsureCreated(local, IngressSecret(pc, tlsSecret.value));
    if e.Fail? {
      return;
    }
    assert TLSCopy(l0, r0, pc) == Step2(local.Snapshot(), remote.Snapshot(), Pass);

    e := EnsureIngressRoute(local, pc, env.builders);
    if e.Fail? {
      return;
    }
    if env.kubeConfig.Err? {
      return Fail(env.kubeConfig.error);
    }
    var kubeConfig := env.kubeConfig.value;
    e := CreateOrUpdate(local, BuildSecretForKyverno(pc, env.builders, kubeConfig));
    if e.Fail? {
      return;
    }
    e := CreateOrUpdate(local, BuildServiceForKyverno(pc, env.builders));
    if e.Fail? {
      return;
    }
    e := CreateOrUpdate(local, BuildDeploymentForKyverno(pc, env.builders));
  }

  // ----------------------------------------------------------------- lemmas

  /** A failing workspace configuration is returned before either store is touched. */
  lemma WorkspaceConfigFailsFirst(l: State, r: State, env: Env, pc: PolicyControl)
    requires env.workspaceMapper.Err?
    ensures WorkspaceStage(l, r, env, pc) == Step2(l, r, Fail(env.workspaceMapper.error))
  {
  }

  /** The manifest loop over two lists is the loop over the first, then, unless it failed, over the second. */
  lemma {:induction false} ManifestLoopAppend(s: State, env: Env, mapper: Mapper, a: seq<string>, b: seq<string>)
    ensures ManifestLoop(s, env, mapper, a + b) ==
      var st := ManifestLoop(s, env, mapper, a);
      if st.out.Fail? then st else ManifestLoop(st.state, env, mapper, b)
    decreases |a|
  {
    if a == [] {
      assert a + b == b;
    } else {
      assert (a + b)[0] == a[0] && (a + b)[1..] == a[1..] + b;
      var st := FileUpsert(s, env, mapper, a[0], true);
      if st.out.Pass? {
        ManifestLoopAppend(st.state, env, mapper, a[1..], b);
      }
    }
  }

  /**
   * The manifests are upserted in order and the first failure ends the loop:
   * when the files before `paths[i]` all succeed and `paths[i]` fails, the
   * loop's result is that failure, and no later file is touched.
   */
  lemma ManifestLoopStopsAtFirstFailure(s: State, env: Env, mapper: Mapper, paths: seq<string>, i: nat)
    requires i < |paths|
    requires ManifestLoop(s, env, mapper, paths[..i]).out == Pass
    requires FileUpsert(ManifestLoop(s, env, mapper, paths[..i]).state, env, mapper, paths[i], true).out.Fail?
    ensures ManifestLoop(s, env, mapper, paths) ==
      FileUpsert(ManifestLoop(s, env, mapper, paths[..i]).state, env, mapper, paths[i], true)
  {
    assert paths == paths[..i] + paths[i..];
    ManifestLoopAppend(s, env, mapper, paths[..i], paths[i..]);
    assert paths[i..][0] == paths[i];
  }

  /** The install manifests come first, in order, and the API-bindings manifest is upserted last, only if they all succeed. */
  lemma BindingsAfterManifests(s: State, env: Env, mapper: Mapper)
    ensures ManifestLoop(s, env, mapper, ManifestPaths(env)) ==
      var st := ManifestLoop(s, env, mapper, env.manifestFiles);
      if st.out.Fail? then st else
      var last := FileUpsert(st.state, env, mapper, env.apiBindingsManifest, true);
      if last.out.Fail? then last else Step(last.state, Pass)
  {
    ManifestLoopAppend(s, env, mapper, env.manifestFiles, [env.apiBindingsManifest]);
  }

  /**
   * When the TLS secret cannot be read, the stage fails after the manifests
   * with nothing written to the cluster and none of the three TLS secrets
   * written anywhere.
   */
  lemma TLSReadFailureAborts(l: State, r: State, env: Env, pc: PolicyControl)
    requires env.workspaceMapper.Ok?
    requires RemoteSetup(r, env, pc, env.workspaceMapper.value).out == Pass
    requires GetResult(l, TLSSourceKey(pc)).Err?
    ensures WorkspaceStage(l, r, env, pc) ==
      Step2(l, RemoteSetup(r, env, pc, env.workspaceMapper.value).state, Fail(GetFailed(TLSSourceKey(pc))))
  {
  }

  /**
   * The three TLS secrets are create-if-absent: the copy issues only create
   * requests, on both stores; an existing secret is kept, an absent one is
   * created from the TLS secret read.
   */
  lemma TLSCopyOnlyCreates(l: State, r: State, pc: PolicyControl)
    ensures var tc := TLSCopy(l, r, pc);
      OnlyCreatesSince(l, tc.local) && OnlyCreatesSince(r, tc.remote)
    ensures var tc := TLSCopy(l, r, pc);
      tc.out.Pass? ==>
        var tls := l.objects[TLSSourceKey(pc)];
        && TLSSourceKey(pc) in l.objects
        && tc.remote.objects == Apply([Ensure(PairSecret(pc, tls).Key(), PairSecret(pc, tls)),
                                       Ensure(CASecret(pc, tls).Key(), CASecret(pc, tls))], r.objects)
        && tc.local.objects == Exec(IngressSecretOp(pc, tls), l.objects)
  {
    if GetResult(l, TLSSourceKey(pc)).Ok? {
      var tls := l.objects[TLSSourceKey(pc)];
      var st1 := CreateIfAbsent(r, PairSecret(pc, tls));
      CreateIfAbsentOnlyCreates(r, PairSecret(pc, tls));
      CreateIfAbsentActsAsEnsure(r, PairSecret(pc, tls));
      CreateIfAbsentOnlyCreates(st1.state, CASecret(pc, tls));
      CreateIfAbsentActsAsEnsure(st1.state, CASecret(pc, tls));
      OnlyCreatesTrans(r, st1.state, CreateIfAbsent(st1.state, CASecret(pc, tls)).state);
      CreateIfAbsentOnlyCreates(l, IngressSecret(pc, tls));
      CreateIfAbsentActsAsEnsure(l, IngressSecret(pc, tls));
      ApplyTwo(Ensure(PairSecret(pc, tls).Key(), PairSecret(pc, tls)), Ensure(CASecret(pc, tls).Key(), CASecret(pc, tls)), r.objects);
    }
  }

  /** An ingress that cannot be read (absent, or its Get fails) is created fresh. */
  lemma IngressCreatedWhenUnreadable(s: State, pc: PolicyControl, b: Builders)
    requires ReadIngress(s, IngressKey(pc)).None?
    ensures IngressStep(s, pc, b) == CreateStep(s, BuildIngressForKyverno(pc, b).AsObj())
  {
  }

  /**
   * A readable ingress is always updated with the merge's result, even when
   * the tenant's path is already routed and the merge returned it unchanged.
   */
  lemma IngressAlwaysUpdated(s: State, pc: PolicyControl, b: Builders)
    requires WellKeyed(s.objects)
    requires ReadIngress(s, IngressKey(pc)).Some?
    requires Merge(pc, b, ReadIngress(s, IngressKey(pc)).value).Ok?
    ensures IngressStep(s, pc, b) == UpdateStep(s, Merge(pc, b, ReadIngress(s, IngressKey(pc)).value).value.AsObj())
    ensures var ing := ReadIngress(s, IngressKey(pc)).value;
      HasPathOnHost(ing.spec.rules, Host(pc), GetPath(pc, b)) ==>
        IngressStep(s, pc, b) == UpdateStep(s, ing.AsObj()) &&
        IngressStep(s, pc, b).state.requests == s.requests + [UpdateReq(IngressKey(pc))]
  {
    var ing := ReadIngress(s, IngressKey(pc)).value;
    assert s.objects[IngressKey(pc)].Key() == IngressKey(pc);
    if HasPathOnHost(ing.spec.rules, Host(pc), GetPath(pc, b)) {
      MergeKeepsExistingRoute(pc, b, ing);
    }
  }

  /**
   * An ingress the syncer wrote through the dynamic client reads back as an
   * ingress: the stage never creates over it, and when the tenant's route
   * merges into its spec and the update is accepted, the stored ingress is
   * replaced by the merge, which routes the tenant.
   */
  lemma SyncedIngressIsMerged(s: State, pc: PolicyControl, b: Builders)
    requires WellKeyed(s.objects)
    requires GetResult(s, IngressKey(pc)).Ok?
    requires var o := GetResult(s, IngressKey(pc)).value; o.ManifestObj? && o.content.IngressContent?
    ensures NoCreatesSince(s, IngressStep(s, pc, b).state)
    ensures var k, o := IngressKey(pc), s.objects[IngressKey(pc)];
      var ing := Ingress(o.meta, o.content.spec);
      var st := IngressStep(s, pc, b);
      Merge(pc, b, ing).Ok? && k !in s.faults.updateFails ==>
        && st.out == Pass
        && st.state.objects == s.objects[k := Merge(pc, b, ing).value.AsObj()]
        && HasPathOnHost(st.state.objects[k].ingress.rules, Host(pc), GetPath(pc, b))
  {
    var k, o := IngressKey(pc), s.objects[IngressKey(pc)];
    var ing := Ingress(o.meta, o.content.spec);
    assert ReadIngress(s, k) == Some(ing);
    assert o.Key() == k;
    if Merge(pc, b, ing).Ok? {
      MergeRoutesTenant(pc, b, ing);
      assert Merge(pc, b, ing).value.meta == ing.meta by {
        if !HasPathOnHost(ing.spec.rules, Host(pc), GetPath(pc, b)) {
          MergeAppendsOnePath(pc, b, ing);
        } else {
          MergeKeepsExistingRoute(pc, b, ing);
        }
      }
    }
  }

  /**
   * The TLS source secret is read through a typed client, so a secret the
   * syncer wrote as a manifest provides its data just as a typed one does:
   * the three secrets the stage builds carry that data's key, certificate
   * and CA.
   */
  lemma TLSSourceDataCopied(pc: PolicyControl, tls: Obj, data: map<string, string>)
    requires (tls.SecretObj? && tls.data == data) || (tls.ManifestObj? && tls.content == SecretContent(data))
    ensures var t := pc.spec.policyControlCluster.ingressTLSSecret;
      var pair, ca, ingSecret := PairSecret(pc, tls), CASecret(pc, tls), IngressSecret(pc, tls);
      && (t.keyForPrivKey in data ==> pair.data[TLSKeyKey] == data[t.keyForPrivKey] && ingSecret.data[TLSKeyKey] == data[t.keyForPrivKey])
      && (t.keyForCert in data ==> pair.data[TLSCertKey] == data[t.keyForCert] && ingSecret.data[TLSCertKey] == data[t.keyForCert])
      && (t.keyForCacert in data ==> ca.data[CAKey] == data[t.keyForCacert])
  {
  }

  /** A readable ingress without a rule for the host makes the merge fail; the nil result's update panics before any write. */
  lemma IngressWithoutHostPanics(s: State, pc: PolicyControl, b: Builders)
    requires ReadIngress(s, IngressKey(pc)).Some?
    requires forall i :: 0 <= i < |ReadIngress(s, IngressKey(pc)).value.spec.rules| ==>
      ReadIngress(s, IngressKey(pc)).value.spec.rules[i].host != Host(pc)
    ensures IngressStep(s, pc, b) == Step(s, Fail(NilIngressPanic))
  {
    MergeFailsIffNoHost(pc, b, ReadIngress(s, IngressKey(pc)).value);
  }

  /** The three writes of `UpsertInOrder`, in order, as decided by the store before them. */
  function UpsertWrites(s: State, o1: Obj, o2: Obj, o3: Obj): seq<Request> {
    [WriteRequest(s, o1.Key()), WriteRequest(s, o2.Key()), WriteRequest(s, o3.Key())]
  }

  /** How many of the three upserts run: all of them, or up to the first that fails. */
  function UpsertsIssued(s: State, o1: Obj, o2: Obj, o3: Obj): nat {
    var st1 := CreateOrUpdateStep(s, o1);
    if st1.out.Fail? then 1 else if CreateOrUpdateStep(st1.state, o2).out.Fail? then 2 else 3
  }

  /**
   * Three upserts at distinct keys are issued once each, in order, up to the
   * first failure: the requests are that prefix of the three writes, all
   * three on success.
   */
  lemma UpsertInOrderRequests(s: State, o1: Obj, o2: Obj, o3: Obj)
    requires WellKeyed(s.objects)
    requires o1.Key() != o2.Key() && o1.Key() != o3.Key() && o2.Key() != o3.Key()
    ensures var st, n := UpsertInOrder(s, o1, o2, o3), UpsertsIssued(s, o1, o2, o3);
      && 1 <= n <= 3
      && st.state.requests == s.requests + UpsertWrites(s, o1, o2, o3)[..n]
      && (st.out.Pass? ==> n == 3)
  {
    var w := UpsertWrites(s, o1, o2, o3);
    var st1 := CreateOrUpdateStep(s, o1);
    CreateOrUpdateActsAsEnsure(s, o1);
    if st1.out.Fail? {
      assert UpsertInOrder(s, o1, o2, o3) == st1;
      assert w[..1] == [w[0]];
    } else {
      UpsertKeepsOthers(s, o1, o2.Key(), o3.Key());
      if CreateOrUpdateStep(st1.state, o2).out.Fail? {
        UpsertSecondFails(s, o1, o2, o3);
      } else {
        UpsertAllRun(s, o1, o2, o3);
      }
    }
  }

  lemma UpsertSecondFails(s: State, o1: Obj, o2: Obj, o3: Obj)
    requires WellKeyed(s.objects)
    requires o1.Key() != o2.Key() && o1.Key() != o3.Key() && o2.Key() != o3.Key()
    requires CreateOrUpdateStep(s, o1).out.Pass? && CreateOrUpdateStep(CreateOrUpdateStep(s, o1).state, o2).out.Fail?
    ensures UpsertInOrder(s, o1, o2, o3).state.requests == s.requests + UpsertWrites(s, o1, o2, o3)[..2]
  {
    var w := UpsertWrites(s, o1, o2, o3);
    var st1 := CreateOrUpdateStep(s, o1);
    CreateOrUpdateActsAsEnsure(s, o1);
    UpsertKeepsOthers(s, o1, o2.Key(), o3.Key());
    CreateOrUpdateActsAsEnsure(st1.state, o2);
    assert w[..2] == [w[0]] + [w[1]];
  }

  lemma UpsertAllRun(s: State, o1: Obj, o2: Obj, o3: Obj)
    requires WellKeyed(s.objects)
    requires o1.Key() != o2.Key() && o1.Key() != o3.Key() && o2.Key() != o3.Key()
    requires CreateOrUpdateStep(s, o1).out.Pass? && CreateOrUpdateStep(CreateOrUpdateStep(s, o1).state, o2).out.Pass?
    ensures UpsertInOrder(s, o1, o2, o3).state.requests == s.requests + UpsertWrites(s, o1, o2, o3)
  {
    var w := UpsertWrites(s, o1, o2, o3);
    var st1 := CreateOrUpdateStep(s, o1);
    CreateOrUpdateActsAsEnsure(s, o1);
    UpsertKeepsOthers(s, o1, o2.Key(), o3.Key());
    var st2 := CreateOrUpdateStep(st1.state, o2);
    CreateOrUpdateActsAsEnsure(st1.state, o2);
    UpsertKeepsOthers(st1.state, o2, o3.Key(), o3.Key());
    CreateOrUpdateActsAsEnsure(st2.state, o3);
    assert w == [w[0]] + [w[1]] + [w[2]];
  }

  /** A failure of the three upserts is that of the last write issued. */
  lemma UpsertInOrderError(s: State, o1: Obj, o2: Obj, o3: Obj)
    requires WellKeyed(s.objects)
    requires o1.Key() != o2.Key() && o1.Key() != o3.Key() && o2.Key() != o3.Key()
    ensures var st, n := UpsertInOrder(s, o1, o2, o3), UpsertsIssued(s, o1, o2, o3);
      st.out.Fail? ==>
        1 <= n <= 3 &&
        st.out.error == WriteError(UpsertWrites(s, o1, o2, o3)[n - 1])
  {
    var w := UpsertWrites(s, o1, o2, o3);
    var st1 := CreateOrUpdateStep(s, o1);
    CreateOrUpdateActsAsEnsure(s, o1);
    if st1.out.Fail? {
      assert UpsertInOrder(s, o1, o2, o3) == st1;
    } else {
      UpsertKeepsOthers(s, o1, o2.Key(), o3.Key());
      var st2 := CreateOrUpdateStep(st1.state, o2);
      CreateOrUpdateActsAsEnsure(st1.state, o2);
      assert w[1] == WriteRequest(st1.state, o2.Key());
      if st2.out.Fail? {
        assert UpsertInOrder(s, o1, o2, o3) == st2;
      } else {
        UpsertKeepsOthers(st1.state, o2, o3.Key(), o3.Key());
        CreateOrUpdateActsAsEnsure(st2.state, o3);
        assert w[2] == WriteRequest(st2.state, o3.Key());
      }
    }
  }

  /** A successful upsert keeps what a Get returns at other keys, and the store well keyed. */
  lemma UpsertKeepsOthers(s: State, o: Obj, k1: Key, k2: Key)
    requires WellKeyed(s.objects) && CreateOrUpdateStep(s, o).out.Pass?
    requires k1 != o.Key() && k2 != o.Key()
    ensures var s' := CreateOrUpdateStep(s, o).state;
      GetResult(s', k1) == GetResult(s, k1) && GetResult(s', k2) == GetResult(s, k2) && WellKeyed(s'.objects)
  {
    CreateOrUpdateActsAsEnsure(s, o);
  }

  /** On a store where no call fails, three upserts act as three Ensure operations. */
  lemma UpsertInOrderEffect(s: State, o1: Obj, o2: Obj, o3: Obj)
    requires s.faults == NoFaults && WellKeyed(s.objects)
    ensures var st, ops := UpsertInOrder(s, o1, o2, o3), [Ensure(o1.Key(), o1), Ensure(o2.Key(), o2), Ensure(o3.Key(), o3)];
      && st.out == Pass && st.state.faults == NoFaults
      && st.state.objects == Apply(ops, s.objects)
      && WellKeyed(st.state.objects)
      && (Keys(ops) <= s.objects.Keys ==> NoCreatesSince(s, st.state))
  {
    var ops := [Ensure(o1.Key(), o1), Ensure(o2.Key(), o2), Ensure(o3.Key(), o3)];
    var st1 := CreateOrUpdateStep(s, o1);
    CreateOrUpdateNoFaults(s, o1);
    ApplyWellKeyed([ops[0]], s.objects);
    assert Apply([ops[0]], s.objects) == Exec(ops[0], s.objects);
    var st2 := CreateOrUpdateStep(st1.state, o2);
    CreateOrUpdateNoFaults(st1.state, o2);
    ApplyWellKeyed([ops[1]], st1.state.objects);
    assert Apply([ops[1]], st1.state.objects) == Exec(ops[1], st1.state.objects);
    CreateOrUpdateNoFaults(st2.state, o3);
    ApplyThree(ops[0], ops[1], ops[2], s.objects);
    ApplyWellKeyed(ops, s.objects);
    if Keys(ops) <= s.objects.Keys {
      assert ops[0].key in Keys(ops) && ops[1].key in Keys(ops) && ops[2].key in Keys(ops);
      NoCreatesTrans(s, st1.state, st2.state);
      NoCreatesTrans(s, st2.state, CreateOrUpdateStep(st2.state, o3).state);
    }
  }

  /** The kubeconfig secret, the service and the deployment live at three different keys. */
  lemma TenantKeysDistinct(pc: PolicyControl, b: Builders, kc: string)
    ensures var k1, k2, k3 := BuildSecretForKyverno(pc, b, kc).Key(), BuildServiceForKyverno(pc, b).Key(), BuildDeploymentForKyverno(pc, b).Key();
      k1 != k2 && k1 != k3 && k2 != k3
  {
    assert BuildSecretForKyverno(pc, b, kc).Key().resource == "secrets";
    assert BuildServiceForKyverno(pc, b).Key().resource == "services";
    assert BuildDeploymentForKyverno(pc, b).Key().resource == "deployments";
  }

  /** The three write requests of the tenant objects, in order, as decided by the store before them. */
  function TenantWrites(s: State, pc: PolicyControl, b: Builders, kc: string): seq<Request> {
    UpsertWrites(s, BuildSecretForKyverno(pc, b, kc), BuildServiceForKyverno(pc, b), BuildDeploymentForKyverno(pc, b))
  }

  /**
   * The kubeconfig secret, the service and the deployment are written once
   * each, in that order; the first failure ends the sequence: the requests
   * issued are a prefix of the three writes, all three when the sequence
   * succeeds, and a failure is that of the last write issued.
   */
  lemma TenantObjectsInOrder(s: State, pc: PolicyControl, b: Builders, kc: string)
    requires WellKeyed(s.objects)
    ensures var st, n := TenantObjects(s, pc, b, kc), |TenantObjects(s, pc, b, kc).state.requests| - |s.requests|;
      && 1 <= n <= 3
      && st.state.requests == s.requests + TenantWrites(s, pc, b, kc)[..n]
      && (st.out.Pass? ==> n == 3)
      && (st.out.Fail? ==> st.out.error == WriteError(TenantWrites(s, pc, b, kc)[n - 1]))
  {
    var o1, o2, o3 := BuildSecretForKyverno(pc, b, kc), BuildServiceForKyverno(pc, b), BuildDeploymentForKyverno(pc, b);
    TenantKeysDistinct(pc, b, kc);
    UpsertInOrderRequests(s, o1, o2, o3);
    UpsertInOrderError(s, o1, o2, o3);
  }

  // -------------------------------------------------- the stage as operations

  /** The operations of the manifest loop on a store where no call fails, and its outcome. */
  function FilePlan(env: Env, mapper: Mapper, paths: seq<string>): (p: (seq<Op>, Outcome<Error>))
    ensures KeyedOps(p.0)
    decreases |paths|
  {
    if paths == [] then ([], Pass)
    else match LoadManifest(env, mapper, paths[0])
      case Err(e) => ([], Fail(e))
      case Ok((u, m)) =>
        var o := FromManifest(m.resource, u);
        var r := FilePlan(env, mapper, paths[1..]);
        ([Put(o.Key(), o)] + r.0, r.1)
  }

  /**
   * On a store where no call fails the manifest loop performs its plan: each
   * loaded manifest is written as it is, in order, up to the first file that
   * cannot be loaded. When every key is already stored it issues no create.
   */
  lemma {:induction false} ManifestLoopFollowsPlan(s: State, env: Env, mapper: Mapper, paths: seq<string>)
    requires s.faults == NoFaults && WellKeyed(s.objects)
    ensures var st, p := ManifestLoop(s, env, mapper, paths), FilePlan(env, mapper, paths);
      && st.out == p.1 && st.state.faults == NoFaults
      && st.state.objects == Apply(p.0, s.objects)
      && WellKeyed(st.state.objects)
      && (Keys(p.0) <= s.objects.Keys ==> NoCreatesSince(s, st.state))
    decreases |paths|
  {
    if paths != [] {
      var loaded := LoadManifest(env, mapper, paths[0]);
      if loaded.Ok? {
        var (u, m) := loaded.value;
        var o := FromManifest(m.resource, u);
        var op := Put(o.Key(), o);
        UnstructuredUpsertNoFaults(s, m.resource, u, true);
        var s1 := FileUpsert(s, env, mapper, paths[0], true).state;
        assert WellKeyed(s1.objects);
        var p, r := FilePlan(env, mapper, paths), FilePlan(env, mapper, paths[1..]);
        assert p.0 == [op] + r.0 && ([op] + r.0)[1..] == r.0;
        ManifestLoopFollowsPlan(s1, env, mapper, paths[1..]);
        if Keys(p.0) <= s.objects.Keys {
          KeysAppend([op], r.0);
          assert [op][0] == op && op.key in Keys([op]);
          NoCreatesTrans(s, s1, ManifestLoop(s1, env, mapper, paths[1..]).state);
        }
      }
    }
  }

  function NamespaceOp(pc: PolicyControl): Op {
    Ensure(APIResourcesNamespace(pc).Key(), APIResourcesNamespace(pc))
  }

  /** The namespace and the manifests, as operations. */
  function SetupOps(env: Env, mapper: Mapper, pc: PolicyControl): seq<Op> {
    [NamespaceOp(pc)] + FilePlan(env, mapper, ManifestPaths(env)).0
  }

  function TLSOps(pc: PolicyControl, tls: Obj): seq<Op> {
    [Ensure(PairSecret(pc, tls).Key(), PairSecret(pc, tls)), Ensure(CASecret(pc, tls).Key(), CASecret(pc, tls))]
  }

  /** What a successful stage does to the workspace, given the TLS secret it read. */
  function RemoteOps(env: Env, mapper: Mapper, pc: PolicyControl, tls: Obj): seq<Op> {
    SetupOps(env, mapper, pc) + TLSOps(pc, tls)
  }

  function TenantOps(pc: PolicyControl, b: Builders, kc: string): seq<Op> {
    var o1, o2, o3 := BuildSecretForKyverno(pc, b, kc), BuildServiceForKyverno(pc, b), BuildDeploymentForKyverno(pc, b);
    [Ensure(o1.Key(), o1), Ensure(o2.Key(), o2), Ensure(o3.Key(), o3)]
  }

  /** The ingress write, then the tenant objects. */
  function IngressAndTenantOps(pc: PolicyControl, b: Builders, kc: string, ing: Obj): seq<Op> {
    [Put(IngressKey(pc), ing)] + TenantOps(pc, b, kc)
  }

  /** What a successful stage does to the cluster, given the TLS secret it read and the ingress it wrote. */
  function LocalOps(pc: PolicyControl, b: Builders, kc: string, tls: Obj, ing: Obj): seq<Op> {
    [IngressSecretOp(pc, tls)] + IngressAndTenantOps(pc, b, kc, ing)
  }

  /** The stored ingress reads as an ingress into which the tenant's route merges, or there is none. */
  ghost predicate IngressMergeable(m: Contents, pc: PolicyControl, b: Builders) {
    var k := IngressKey(pc);
    k in m ==> AsIngress(m[k]).Some? && Merge(pc, b, AsIngress(m[k]).value).Ok?
  }

  /** The ingress the stage leaves: the merge of the stored one, or a fresh one. */
  ghost function IngressAfter(m: Contents, pc: PolicyControl, b: Builders): Obj {
    var k := IngressKey(pc);
    if k in m && AsIngress(m[k]).Some? && Merge(pc, b, AsIngress(m[k]).value).Ok?
    then Merge(pc, b, AsIngress(m[k]).value).value.AsObj()
    else BuildIngressForKyverno(pc, b).AsObj()
  }

  /** What the stage needs from its environment and the cluster to succeed on stores where no call fails. */
  ghost predicate WorkspaceReady(m: Contents, env: Env, pc: PolicyControl) {
    && env.workspaceMapper.Ok?
    && FilePlan(env, env.workspaceMapper.value, ManifestPaths(env)).1 == Pass
    && env.kubeConfig.Ok?
    && TLSSourceKey(pc) in m
    && IngressMergeable(m, pc, env.builders)
  }

  lemma RemoteSetupFollowsPlan(r: State, env: Env, pc: PolicyControl, mapper: Mapper)
    requires r.faults == NoFaults && WellKeyed(r.objects)
    ensures var st := RemoteSetup(r, env, pc, mapper);
      && st.out == FilePlan(env, mapper, ManifestPaths(env)).1 && st.state.faults == NoFaults
      && st.state.objects == Apply(SetupOps(env, mapper, pc), r.objects)
      && WellKeyed(st.state.objects)
      && (Keys(SetupOps(env, mapper, pc)) <= r.objects.Keys ==> NoCreatesSince(r, st.state))
  {
    var ns := APIResourcesNamespace(pc);
    var st1 := CreateIfAbsent(r, ns);
    CreateIfAbsentNoFaults(r, ns);
    var fp := FilePlan(env, mapper, ManifestPaths(env));
    ManifestLoopFollowsPlan(st1.state, env, mapper, ManifestPaths(env));
    assert SetupOps(env, mapper, pc)[0] == NamespaceOp(pc) && SetupOps(env, mapper, pc)[1..] == fp.0;
    if Keys(SetupOps(env, mapper, pc)) <= r.objects.Keys {
      KeysAppend([NamespaceOp(pc)], fp.0);
      assert ns.Key() in Keys([NamespaceOp(pc)]);
      NoCreatesTrans(r, st1.state, ManifestLoop(st1.state, env, mapper, ManifestPaths(env)).state);
    }
  }

  lemma TLSCopyEffect(l: State, r: State, pc: PolicyControl)
    requires l.faults == NoFaults && r.faults == NoFaults && WellKeyed(l.objects) && WellKeyed(r.objects)
    requires TLSSourceKey(pc) in l.objects
    ensures var tc, tls := TLSCopy(l, r, pc), l.objects[TLSSourceKey(pc)];
      && tc.out == Pass && tc.local.faults == NoFaults && tc.remote.faults == NoFaults
      && tc.remote.objects == Apply(TLSOps(pc, tls), r.objects)
      && tc.local.objects == Exec(IngressSecretOp(pc, tls), l.objects)
      && WellKeyed(tc.local.objects) && WellKeyed(tc.remote.objects)
      && (Keys(TLSOps(pc, tls)) <= r.objects.Keys ==> NoCreatesSince(r, tc.remote))
      && (IngressSecret(pc, tls).Key() in l.objects ==> NoCreatesSince(l, tc.local))
  {
    var tls := l.objects[TLSSourceKey(pc)];
    var o1, o2 := PairSecret(pc, tls), CASecret(pc, tls);
    var st1 := CreateIfAbsent(r, o1);
    CreateIfAbsentNoFaults(r, o1);
    CreateIfAbsentNoFaults(st1.state, o2);
    CreateIfAbsentNoFaults(l, IngressSecret(pc, tls));
    ApplyTwo(TLSOps(pc, tls)[0], TLSOps(pc, tls)[1], r.objects);
    ApplyWellKeyed(TLSOps(pc, tls), r.objects);
    ApplyWellKeyed([IngressSecretOp(pc, tls)], l.objects);
    assert Apply([IngressSecretOp(pc, tls)], l.objects)
      == Exec(IngressSecretOp(pc, tls), l.objects);
    if Keys(TLSOps(pc, tls)) <= r.objects.Keys {
      assert TLSOps(pc, tls)[0].key in Keys(TLSOps(pc, tls)) && TLSOps(pc, tls)[1].key in Keys(TLSOps(pc, tls));
    }
  }

  lemma IngressStepEffect(s: State, pc: PolicyControl, b: Builders)
    requires s.faults == NoFaults && WellKeyed(s.objects) && IngressMergeable(s.objects, pc, b)
    ensures var st, k := IngressStep(s, pc, b), IngressKey(pc);
      && st.out == Pass && st.state.faults == NoFaults
      && IngressAfter(s.objects, pc, b).Key() == k
      && st.state.objects == Exec(Put(k, IngressAfter(s.objects, pc, b)), s.objects)
      && WellKeyed(st.state.objects)
      && (k in s.objects ==> NoCreatesSince(s, st.state))
  {
    if IngressKey(pc) in s.objects {
      IngressStepMerges(s, pc, b);
    }
  }

  /** The update half of IngressStepEffect: a stored ingress is replaced by its merge. */
  lemma IngressStepMerges(s: State, pc: PolicyControl, b: Builders)
    requires s.faults == NoFaults && WellKeyed(s.objects) && IngressMergeable(s.objects, pc, b)
    requires IngressKey(pc) in s.objects
    ensures var st, k := IngressStep(s, pc, b), IngressKey(pc);
      && st.out == Pass && st.state.faults == NoFaults
      && IngressAfter(s.objects, pc, b).Key() == k
      && st.state.objects == s.objects[k := IngressAfter(s.objects, pc, b)]
      && NoCreatesSince(s, st.state)
  {
    var k := IngressKey(pc);
    var ing := AsIngress(s.objects[k]).value;
    assert s.objects[k].Key() == k;
    assert Merge(pc, b, ing).value.meta == ing.meta;
  }

  lemma TenantObjectsEffect(s: State, pc: PolicyControl, b: Builders, kc: string)
    requires s.faults == NoFaults && WellKeyed(s.objects)
    ensures var st := TenantObjects(s, pc, b, kc);
      && st.out == Pass && st.state.faults == NoFaults
      && st.state.objects == Apply(TenantOps(pc, b, kc), s.objects)
      && WellKeyed(st.state.objects)
      && (Keys(TenantOps(pc, b, kc)) <= s.objects.Keys ==> NoCreatesSince(s, st.state))
  {
    UpsertInOrderEffect(s, BuildSecretForKyverno(pc, b, kc), BuildServiceForKyverno(pc, b), BuildDeploymentForKyverno(pc, b));
  }

  /** The ingress a stage computes depends only on what the store holds at the ingress's key. */
  lemma IngressAfterFrame(m: Contents, m': Contents, pc: PolicyControl, b: Builders)
    requires IngressKey(pc) in m <==> IngressKey(pc) in m'
    requires IngressKey(pc) in m ==> m[IngressKey(pc)] == m'[IngressKey(pc)]
    ensures IngressAfter(m, pc, b) == IngressAfter(m', pc, b)
    ensures IngressMergeable(m, pc, b) <==> IngressMergeable(m', pc, b)
  {
  }

  /** Creating the ingress TLS secret does not touch the ingress's key. */
  lemma IngressSecretFrame(m: Contents, pc: PolicyControl, tls: Obj)
    ensures var m' := Exec(IngressSecretOp(pc, tls), m);
      (IngressKey(pc) in m' <==> IngressKey(pc) in m) && (IngressKey(pc) in m ==> m'[IngressKey(pc)] == m[IngressKey(pc)])
  {
  }

  lemma WorkspaceStageUnfold(l: State, r: State, env: Env, pc: PolicyControl)
    requires env.workspaceMapper.Ok?
    requires RemoteSetup(r, env, pc, env.workspaceMapper.value).out == Pass
    requires TLSCopy(l, RemoteSetup(r, env, pc, env.workspaceMapper.value).state, pc).out == Pass
    ensures var tc := TLSCopy(l, RemoteSetup(r, env, pc, env.workspaceMapper.value).state, pc);
      WorkspaceStage(l, r, env, pc) == LocalObjects(tc.local, tc.remote, env, pc)
  {
  }

  /** The cluster side after the TLS secrets, on a store where no call fails. */
  lemma LocalObjectsEffect(l: State, r: State, env: Env, pc: PolicyControl)
    requires l.faults == NoFaults && WellKeyed(l.objects) && IngressMergeable(l.objects, pc, env.builders)
    requires env.kubeConfig.Ok?
    ensures var lo, b, k := LocalObjects(l, r, env, pc), env.builders, IngressKey(pc);
      var ops := IngressAndTenantOps(pc, b, env.kubeConfig.value, IngressAfter(l.objects, pc, b));
      && lo.out == Pass && lo.remote == r && lo.local.faults == NoFaults
      && lo.local.objects == Apply(ops, l.objects)
      && WellKeyed(lo.local.objects)
      && (Keys(ops) <= l.objects.Keys ==> NoCreatesSince(l, lo.local))
  {
    var b, k, kc := env.builders, IngressKey(pc), env.kubeConfig.value;
    var put := Put(k, IngressAfter(l.objects, pc, b));
    IngressStepEffect(l, pc, b);
    var ist := IngressStep(l, pc, b);
    TenantObjectsEffect(ist.state, pc, b, kc);
    ApplyCons(put, TenantOps(pc, b, kc), l.objects);
    if Keys([put] + TenantOps(pc, b, kc)) <= l.objects.Keys {
      KeysCons(put, TenantOps(pc, b, kc));
      NoCreatesTrans(l, ist.state, TenantObjects(ist.state, pc, b, kc).state);
    }
  }

  /** The workspace side of a ready stage, on stores where no call fails. */
  lemma WorkspaceRemoteEffect(l: State, r: State, env: Env, pc: PolicyControl)
    requires l.faults == NoFaults && r.faults == NoFaults && WellKeyed(l.objects) && WellKeyed(r.objects)
    requires WorkspaceReady(l.objects, env, pc)
    ensures var mapper := env.workspaceMapper.value;
      var st := RemoteSetup(r, env, pc, mapper);
      var tc := TLSCopy(l, st.state, pc);
      var rops := RemoteOps(env, mapper, pc, l.objects[TLSSourceKey(pc)]);
      && st.out == Pass && tc.out == Pass
      && tc.local.faults == NoFaults && tc.remote.faults == NoFaults
      && tc.remote.objects == Apply(rops, r.objects)
      && tc.local.objects == Exec(IngressSecretOp(pc, l.objects[TLSSourceKey(pc)]), l.objects)
      && WellKeyed(tc.local.objects) && WellKeyed(tc.remote.objects)
      && (Keys(rops) <= r.objects.Keys ==> NoCreatesSince(r, tc.remote))
      && (IngressSecret(pc, l.objects[TLSSourceKey(pc)]).Key() in l.objects ==> NoCreatesSince(l, tc.local))
  {
    var mapper := env.workspaceMapper.value;
    var tls := l.objects[TLSSourceKey(pc)];
    var st := RemoteSetup(r, env, pc, mapper);
    RemoteSetupFollowsPlan(r, env, pc, mapper);
    TLSCopyEffect(l, st.state, pc);
    var tc := TLSCopy(l, st.state, pc);
    ApplyAppend(SetupOps(env, mapper, pc), TLSOps(pc, tls), r.objects);
    if Keys(RemoteOps(env, mapper, pc, tls)) <= r.objects.Keys {
      ApplyDomain(SetupOps(env, mapper, pc), r.objects);
      KeysAppend(SetupOps(env, mapper, pc), TLSOps(pc, tls));
      NoCreatesTrans(r, st.state, tc.remote);
    }
  }

  /**
   * On stores where no call fails, a ready stage succeeds and performs its
   * operations: the manifests and the two TLS secrets on the workspace, the
   * ingress TLS secret, the ingress it computes and the tenant objects on the
   * cluster. When every workspace key is already stored it issues no create
   * there (WorkspaceLocalNoCreates is the cluster's half).
   */
  lemma WorkspaceEffect(l: State, r: State, env: Env, pc: PolicyControl)
    requires l.faults == NoFaults && r.faults == NoFaults && WellKeyed(l.objects) && WellKeyed(r.objects)
    requires WorkspaceReady(l.objects, env, pc)
    ensures var w, mapper, kc := WorkspaceStage(l, r, env, pc), env.workspaceMapper.value, env.kubeConfig.value;
      var tls, ing := l.objects[TLSSourceKey(pc)], IngressAfter(l.objects, pc, env.builders);
      var lops, rops := LocalOps(pc, env.builders, kc, tls, ing), RemoteOps(env, mapper, pc, tls);
      && w.out == Pass && w.local.faults == NoFaults && w.remote.faults == NoFaults
      && w.local.objects == Apply(lops, l.objects)
      && w.remote.objects == Apply(rops, r.objects)
      && WellKeyed(w.local.objects) && WellKeyed(w.remote.objects)
      && (Keys(rops) <= r.objects.Keys ==> NoCreatesSince(r, w.remote))
  {
    WorkspaceLocalEffect(l, r, env, pc);
    WorkspaceRemoteResult(l, r, env, pc);
  }

  lemma WorkspaceRemoteResult(l: State, r: State, env: Env, pc: PolicyControl)
    requires l.faults == NoFaults && r.faults == NoFaults && WellKeyed(l.objects) && WellKeyed(r.objects)
    requires WorkspaceReady(l.objects, env, pc)
    ensures var w, rops := WorkspaceStage(l, r, env, pc), RemoteOps(env, env.workspaceMapper.value, pc, l.objects[TLSSourceKey(pc)]);
      && w.remote.faults == NoFaults
      && w.remote.objects == Apply(rops, r.objects)
      && WellKeyed(w.remote.objects)
      && (Keys(rops) <= r.objects.Keys ==> NoCreatesSince(r, w.remote))
  {
    var b, mapper := env.builders, env.workspaceMapper.value;
    var tls := l.objects[TLSSourceKey(pc)];
    WorkspaceRemoteEffect(l, r, env, pc);
    var tc := TLSCopy(l, RemoteSetup(r, env, pc, mapper).state, pc);
    WorkspaceStageUnfold(l, r, env, pc);
    IngressSecretFrame(l.objects, pc, tls);
    IngressAfterFrame(l.objects, tc.local.objects, pc, b);
    LocalObjectsEffect(tc.local, tc.remote, env, pc);
  }

  /** Creating the workspace's namespace and the manifests succeeds when the plan does, and no call fails after. */
  lemma RemoteSetupPasses(r: State, env: Env, pc: PolicyControl, mapper: Mapper)
    requires r.faults == NoFaults && WellKeyed(r.objects)
    ensures var st := RemoteSetup(r, env, pc, mapper);
      st.out == FilePlan(env, mapper, ManifestPaths(env)).1 && st.state.faults == NoFaults
  {
    RemoteSetupFollowsPlan(r, env, pc, mapper);
  }

  /** The cluster side of the TLS copy, on stores where no call fails. */
  lemma TLSCopyLocal(l: State, r: State, pc: PolicyControl)
    requires l.faults == NoFaults && r.faults == NoFaults && WellKeyed(l.objects)
    requires TLSSourceKey(pc) in l.objects
    ensures var tc, sec := TLSCopy(l, r, pc), IngressSecretOp(pc, l.objects[TLSSourceKey(pc)]);
      && tc.out == Pass && tc.local.faults == NoFaults
      && tc.local.objects == Exec(sec, l.objects)
      && WellKeyed(tc.local.objects)
      && (sec.key in l.objects ==> NoCreatesSince(l, tc.local))
  {
    var tls := l.objects[TLSSourceKey(pc)];
    var st1 := CreateIfAbsent(r, PairSecret(pc, tls));
    CreateIfAbsentNoFaults(r, PairSecret(pc, tls));
    CreateIfAbsentNoFaults(st1.state, CASecret(pc, tls));
    CreateIfAbsentNoFaults(l, IngressSecret(pc, tls));
    ApplyWellKeyed([IngressSecretOp(pc, tls)], l.objects);
    assert Apply([IngressSecretOp(pc, tls)], l.objects) == Exec(IngressSecretOp(pc, tls), l.objects);
  }

  /**
   * A ready stage reaches the cluster objects after the TLS copy, which has
   * only created the ingress TLS secret and left the ingress as it was.
   */
  lemma WorkspaceLocalSteps(l: State, r: State, env: Env, pc: PolicyControl)
    requires l.faults == NoFaults && r.faults == NoFaults && WellKeyed(l.objects) && WellKeyed(r.objects)
    requires WorkspaceReady(l.objects, env, pc)
    ensures var b := env.builders;
      var tc := TLSCopy(l, RemoteSetup(r, env, pc, env.workspaceMapper.value).state, pc);
      var sec := IngressSecretOp(pc, l.objects[TLSSourceKey(pc)]);
      && WorkspaceStage(l, r, env, pc) == LocalObjects(tc.local, tc.remote, env, pc)
      && tc.local.faults == NoFaults && tc.local.objects == Exec(sec, l.objects) && WellKeyed(tc.local.objects)
      && IngressMergeable(tc.local.objects, pc, b) && IngressAfter(tc.local.objects, pc, b) == IngressAfter(l.objects, pc, b)
      && (sec.key in l.objects ==> NoCreatesSince(l, tc.local))
  {
    var b, mapper := env.builders, env.workspaceMapper.value;
    var tls := l.objects[TLSSourceKey(pc)];
    RemoteSetupPasses(r, env, pc, mapper);
    var st := RemoteSetup(r, env, pc, mapper);
    TLSCopyLocal(l, st.state, pc);
    var tc := TLSCopy(l, st.state, pc);
    WorkspaceStageUnfold(l, r, env, pc);
    IngressSecretFrame(l.objects, pc, tls);
    IngressAfterFrame(l.objects, tc.local.objects, pc, b);
  }

  lemma WorkspaceLocalEffect(l: State, r: State, env: Env, pc: PolicyControl)
    requires l.faults == NoFaults && r.faults == NoFaults && WellKeyed(l.objects) && WellKeyed(r.objects)
    requires WorkspaceReady(l.objects, env, pc)
    ensures var w := WorkspaceStage(l, r, env, pc);
      var lops := LocalOps(pc, env.builders, env.kubeConfig.value, l.objects[TLSSourceKey(pc)], IngressAfter(l.objects, pc, env.builders));
      && w.out == Pass && w.local.faults == NoFaults
      && w.local.objects == Apply(lops, l.objects)
      && WellKeyed(w.local.objects)
  {
    var b, mapper, kc := env.builders, env.workspaceMapper.value, env.kubeConfig.value;
    var tls, ing := l.objects[TLSSourceKey(pc)], IngressAfter(l.objects, pc, b);
    WorkspaceLocalSteps(l, r, env, pc);
    var tc := TLSCopy(l, RemoteSetup(r, env, pc, mapper).state, pc);
    LocalObjectsEffect(tc.local, tc.remote, env, pc);
    ApplyCons(IngressSecretOp(pc, tls), IngressAndTenantOps(pc, b, kc, ing), l.objects);
  }

  /** A ready stage issues no create to a cluster that already holds every key it writes. */
  lemma WorkspaceLocalNoCreates(l: State, r: State, env: Env, pc: PolicyControl)
    requires l.faults == NoFaults && r.faults == NoFaults && WellKeyed(l.objects) && WellKeyed(r.objects)
    requires WorkspaceReady(l.objects, env, pc)
    requires Keys(LocalOps(pc, env.builders, env.kubeConfig.value, l.objects[TLSSourceKey(pc)],
                           IngressAfter(l.objects, pc, env.builders))) <= l.objects.Keys
    ensures NoCreatesSince(l, WorkspaceStage(l, r, env, pc).local)
  {
    var b, mapper, kc := env.builders, env.workspaceMapper.value, env.kubeConfig.value;
    var tls, ing := l.objects[TLSSourceKey(pc)], IngressAfter(l.objects, pc, b);
    WorkspaceLocalSteps(l, r, env, pc);
    var tc := TLSCopy(l, RemoteSetup(r, env, pc, mapper).state, pc);
    LocalObjectsEffect(tc.local, tc.remote, env, pc);
    KeysCons(IngressSecretOp(pc, tls), IngressAndTenantOps(pc, b, kc, ing));
    NoCreatesTrans(l, tc.local, LocalObjects(tc.local, tc.remote, env, pc).local);
  }

  /** A stage that succeeds on stores where no call fails was ready. */
  lemma WorkspacePassIsReady(l: State, r: State, env: Env, pc: PolicyControl)
    requires l.faults == NoFaults && r.faults == NoFaults && WellKeyed(l.objects) && WellKeyed(r.objects)
    requires WorkspaceStage(l, r, env, pc).out == Pass
    ensures WorkspaceReady(l.objects, env, pc)
  {
    var b, mapper := env.builders, env.workspaceMapper.value;
    var st := RemoteSetup(r, env, pc, mapper);
    RemoteSetupPasses(r, env, pc, mapper);
    assert GetResult(l, TLSSourceKey(pc)).Ok?;
    var tls := l.objects[TLSSourceKey(pc)];
    TLSCopyLocal(l, st.state, pc);
    var tc := TLSCopy(l, st.state, pc);
    WorkspaceStageUnfold(l, r, env, pc);
    IngressSecretFrame(l.objects, pc, tls);
    IngressAfterFrame(l.objects, tc.local.objects, pc, b);
    IngressStepPassIsMergeable(tc.local, pc, b);
  }

  /** An ingress step that succeeds found no ingress, or one it could merge into. */
  lemma IngressStepPassIsMergeable(s: State, pc: PolicyControl, b: Builders)
    requires IngressStep(s, pc, b).out == Pass
    ensures IngressMergeable(s.objects, pc, b)
  {
    var k := IngressKey(pc);
    if k in s.objects {
      assert ReadIngress(s, k).Some?;
    }
  }

  /** The ingress a stage leaves is left as it is by the next stage's merge. */
  lemma IngressAfterStable(m: Contents, m': Contents, pc: PolicyControl, b: Builders)
    requires IngressKey(pc) in m' && m'[IngressKey(pc)] == IngressAfter(m, pc, b)
    ensures IngressMergeable(m', pc, b) && IngressAfter(m', pc, b) == IngressAfter(m, pc, b)
  {
    var k := IngressKey(pc);
    if k in m && AsIngress(m[k]).Some? && Merge(pc, b, AsIngress(m[k]).value).Ok? {
      var ing := AsIngress(m[k]).value;
      MergeIdempotent(pc, b, ing);
      assert AsIngress(m'[k]).value == Merge(pc, b, ing).value;
    } else {
      MergeIntoFreshIngress(pc, b);
      assert AsIngress(m'[k]).value == BuildIngressForKyverno(pc, b);
    }
  }

  /** The stage's own writes to the cluster never replace the TLS secret it reads. */
  lemma LocalOpsKeepTLSSource(pc: PolicyControl, b: Builders, kc: string, tls: Obj, ing: Obj)
    ensures !PutsAt(LocalOps(pc, b, kc, tls, ing), TLSSourceKey(pc))
  {
    var ops := LocalOps(pc, b, kc, tls, ing);
    forall i | 0 <= i < |ops| && ops[i].Put? ensures ops[i].key != TLSSourceKey(pc) {
      assert i == 1;
    }
  }

  /**
   * Once the stage's cluster operations have run, running them again reads
   * the same TLS secret and computes the same ingress: the operations are
   * the same, and the stage is still ready.
   */
  lemma LocalOpsStable(m: Contents, env: Env, pc: PolicyControl)
    requires WorkspaceReady(m, env, pc)
    ensures var t, b, kc := TLSSourceKey(pc), env.builders, env.kubeConfig.value;
      var ops := LocalOps(pc, b, kc, m[t], IngressAfter(m, pc, b));
      var m1 := Apply(ops, m);
      && WorkspaceReady(m1, env, pc)
      && m1[t] == m[t] && IngressAfter(m1, pc, b) == IngressAfter(m, pc, b)
      && LocalOps(pc, b, kc, m1[t], IngressAfter(m1, pc, b)) == ops
      && Keys(ops) <= m1.Keys
  {
    var t, b, kc, k := TLSSourceKey(pc), env.builders, env.kubeConfig.value, IngressKey(pc);
    var tls, ing := m[t], IngressAfter(m, pc, b);
    var ops := LocalOps(pc, b, kc, tls, ing);
    var m1 := Apply(ops, m);
    ApplyDomain(ops, m);
    LocalOpsKeepTLSSource(pc, b, kc, tls, ing);
    ApplyNoPutKeeps(ops, m, t);
    LocalOpsWriteIngress(m, pc, b, kc, tls, ing);
    IngressAfterStable(m, m1, pc, b);
  }

  /** The ingress the stage writes is what its cluster operations leave at the ingress's key. */
  lemma LocalOpsWriteIngress(m: Contents, pc: PolicyControl, b: Builders, kc: string, tls: Obj, ing: Obj)
    ensures var k := IngressKey(pc); k in Apply(LocalOps(pc, b, kc, tls, ing), m) && Apply(LocalOps(pc, b, kc, tls, ing), m)[k] == ing
  {
    var k := IngressKey(pc);
    var sec := IngressSecretOp(pc, tls);
    var e := Exec(sec, m);
    ApplyCons(sec, IngressAndTenantOps(pc, b, kc, ing), m);
    ApplyCons(Put(k, ing), TenantOps(pc, b, kc), e);
    assert k !in Keys(TenantOps(pc, b, kc)) by {
      var tops := TenantOps(pc, b, kc);
      forall i | 0 <= i < |tops| ensures tops[i].key != k { }
    }
    ApplyOutside(TenantOps(pc, b, kc), e[k := ing], k);
  }

  /**
   * Re-running a successful stage on its own result, when no call fails,
   * succeeds again, issues no create and leaves both stores as they were.
   */
  lemma WorkspaceRerunIsNoOp(l: State, r: State, env: Env, pc: PolicyControl)
    requires l.faults == NoFaults && r.faults == NoFaults && WellKeyed(l.objects) && WellKeyed(r.objects)
    requires WorkspaceStage(l, r, env, pc).out == Pass
    ensures var w1 := WorkspaceStage(l, r, env, pc); var w2 := WorkspaceStage(w1.local, w1.remote, env, pc);
      && w2.out == Pass && w2.local.objects == w1.local.objects && w2.remote.objects == w1.remote.objects
      && NoCreatesSince(w1.local, w2.local) && NoCreatesSince(w1.remote, w2.remote)
  {
    var b, mapper, kc := env.builders, env.workspaceMapper.value, env.kubeConfig.value;
    WorkspacePassIsReady(l, r, env, pc);
    WorkspaceEffect(l, r, env, pc);
    var w1 := WorkspaceStage(l, r, env, pc);
    var tls, ing := l.objects[TLSSourceKey(pc)], IngressAfter(l.objects, pc, b);
    var lops, rops := LocalOps(pc, b, kc, tls, ing), RemoteOps(env, mapper, pc, tls);
    LocalOpsStable(l.objects, env, pc);
    ApplyDomain(rops, r.objects);
    WorkspaceEffect(w1.local, w1.remote, env, pc);
    WorkspaceLocalNoCreates(w1.local, w1.remote, env, pc);
    ApplyIdempotent(lops, l.objects);
    ApplyIdempotent(rops, r.objects);
  }
}
