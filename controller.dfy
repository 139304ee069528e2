/**
 * One reconcile pass of the PolicyControl controller: read the PolicyControl
 * named by the request (a missing one ends the pass successfully), read the
 * kcp kubeconfig secret it names from the cluster the operator runs in,
 * write that credential to a temporary file, then run syncPCO,
 * installKyvernoOnEdge and installKyvernoOnWorkspace in that order, the
 * first failure ending the pass. The temporary file is removed only when it
 * was created and written; a failed write returns before the removal is
 * scheduled and leaves the file behind.
 */
module Controller {
  import opened Wrappers
  import opened Objects
  import opened Api
  import opened Store
  import opened Bridge
  import opened Converge
  import opened SecretResource
  import opened ProcessPco
  import opened ProcessEdge
  import opened ProcessWorkspace

  /** What becomes of the temporary kubeconfig file. */
  datatype TempFile = NoTempFile | Leaked | Removed

  /** Both stores after the pass, the error it returns, and the temporary file. */
  datatype Reconciled = Reconciled(local: State, remote: State, out: Outcome<Error>, temp: TempFile)

  /** The PolicyControl the pass works with: the one read, or the zero value when the read failed. */
  function Target(lookup: PcLookup): PolicyControl {
    if lookup.Found? then lookup.pc else ZeroPolicyControl()
  }

  /** Where the kcp kubeconfig secret is read from: the cluster namespace and the secret's name. */
  function KcpSecretKey(pc: PolicyControl): Key {
    ObjectKey("secrets", ClusterNamespace(pc), pc.spec.policyControlCluster.kcpKubeConfigSecret.name)
  }

  /** The three stages in order, the first failure ending the pass; the temporary file is removed afterwards. */
  ghost function Stages(l: State, r: State, env: Env, pc: PolicyControl, reqNamespace: string): Reconciled {
    var st1 := SyncStage(l, env, pc, reqNamespace);
    if st1.out.Fail? then Reconciled(st1.state, r, st1.out, Removed) else
    var st2 := EdgeStage(r, env, pc);
    if st2.out.Fail? then Reconciled(st1.state, st2.state, st2.out, Removed) else
    var w := WorkspaceStage(st1.state, st2.state, env, pc);
    Reconciled(w.local, w.remote, w.out, Removed)
  }

  ghost function ReconcileSpec(l: State, r: State, env: Env, reqNamespace: string): Reconciled {
    if env.pcLookup.NotFound? then Reconciled(l, r, Pass, NoTempFile) else
    var pc := Target(env.pcLookup);
    match GetResult(l, KcpSecretKey(pc))
    case Err(e) => Reconciled(l, r, Fail(e), NoTempFile)
    case Ok(_) =>
      if !env.tempCreated then Reconciled(l, r, Fail(TempFileError), NoTempFile)
      else if !env.tempWritten then Reconciled(l, r, Fail(TempFileError), Leaked)
      else Stages(l, r, env, pc, reqNamespace)
  }

  method Reconcile(local: Cluster, remote: Cluster, env: Env, reqNamespace: string)
    returns (e: Outcome<Error>, temp: TempFile)
    requires local != remote
    modifies local, remote
    ensures Reconciled(local.Snapshot(), remote.Snapshot(), e, temp)
         == ReconcileSpec(old(local.Snapshot()), old(remote.Snapshot()), env, reqNamespace)
  {
    if env.pcLookup.NotFound? {
      return Pass, NoTempFile;
    }
    var pc := Target(env.pcLookup);
    var secret := local.Get(KcpSecretKey(pc));
    if secret.Err? {
      return Fail(secret.error), NoTempFile;
    }
    if !env.tempCreated {
      return Fail(TempFileError), NoTempFile;
    }
    if !env.tempWritten {
      return Fail(TempFileError), Leaked;
    }
    temp := Removed;
    e := SyncPCO(local, env, pc, reqNamespace);
    if e.Fail? {
      return;
    }
    e := InstallKyvernoOnEdge(remote, env, pc);
    if e.Fail? {
      return;
    }
    e := InstallKyvernoOnWorkspace(local, remote, env, pc);
  }

  // ------------------------------------------------------------ the pass

  /** A PolicyControl that no longer exists ends the pass successfully, touching nothing. */
  lemma NotFoundIsNoOp(l: State, r: State, env: Env, reqNamespace: string)
    requires env.pcLookup.NotFound?
    ensures var x := ReconcileSpec(l, r, env, reqNamespace);
      x.out == Pass && x.local == l && x.remote == r && x.temp == NoTempFile
  {
  }

  /**
   * A lookup that fails otherwise than by not found is not returned: the
   * pass goes on with the zero PolicyControl, reading the kcp secret at the
   * key that zero value names and running the stages for it.
   */
  lemma LookupFailureContinues(l: State, r: State, env: Env, reqNamespace: string)
    requires env.pcLookup.LookupFailed?
    ensures var x, k := ReconcileSpec(l, r, env, reqNamespace), KcpSecretKey(ZeroPolicyControl());
      && (GetResult(l, k).Err? ==> x.out == Fail(GetFailed(k)) && x.local == l && x.remote == r)
      && (CredentialReady(l, env) ==> x == Stages(l, r, env, ZeroPolicyControl(), reqNamespace))
  {
  }

  /** An unreadable kcp secret ends the pass with that error before anything is written. */
  lemma SecretFailureComesFirst(l: State, r: State, env: Env, reqNamespace: string)
    requires !env.pcLookup.NotFound?
    requires KcpSecretKey(Target(env.pcLookup)) !in l.objects
          || KcpSecretKey(Target(env.pcLookup)) in l.faults.getFails
    ensures var x := ReconcileSpec(l, r, env, reqNamespace);
      && x.out == Fail(GetFailed(KcpSecretKey(Target(env.pcLookup))))
      && x.local == l && x.remote == r && x.temp == NoTempFile
  {
  }

  /** The stages can run only once the credential is in place. */
  ghost predicate CredentialReady(l: State, env: Env) {
    && !env.pcLookup.NotFound?
    && GetResult(l, KcpSecretKey(Target(env.pcLookup))).Ok?
    && env.tempCreated && env.tempWritten
  }

  /**
   * The temporary file is removed exactly when it was created and written,
   * and left behind exactly when only the write failed; without the
   * credential file no stage runs, so neither store changes.
   */
  lemma TempFileLifecycle(l: State, r: State, env: Env, reqNamespace: string)
    ensures var x := ReconcileSpec(l, r, env, reqNamespace);
      && (x.temp == Removed <==> CredentialReady(l, env))
      && (x.temp == Leaked <==> !env.pcLookup.NotFound? && GetResult(l, KcpSecretKey(Target(env.pcLookup))).Ok?
                                && env.tempCreated && !env.tempWritten)
      && (!CredentialReady(l, env) ==> x.local == l && x.remote == r)
      && (x.temp == Leaked ==> x.out == Fail(TempFileError))
  {
  }

  /**
   * Once the credential is in place the pass returns the first stage error:
   * a failing syncPCO leaves the kcp workspace untouched, a failing edge
   * stage leaves the cluster as syncPCO left it, and the pass succeeds
   * exactly when all three stages do.
   */
  lemma StagesInOrder(l: State, r: State, env: Env, reqNamespace: string)
    requires CredentialReady(l, env)
    ensures var pc, x := Target(env.pcLookup), ReconcileSpec(l, r, env, reqNamespace);
      var st1 := SyncStage(l, env, pc, reqNamespace);
      var st2 := EdgeStage(r, env, pc);
      var w := WorkspaceStage(st1.state, st2.state, env, pc);
      && (st1.out.Fail? ==> x.out == st1.out && x.local == st1.state && x.remote == r)
      && (st1.out.Pass? && st2.out.Fail? ==> x.out == st2.out && x.local == st1.state && x.remote == st2.state)
      && (x.out.Pass? <==> st1.out.Pass? && st2.out.Pass? && w.out.Pass?)
  {
  }

  // ------------------------------------------------------------ rerunning a successful pass

  /** No call fails on either store and every stored object sits at its own key. */
  ghost predicate Healthy(l: State, r: State) {
    l.faults == NoFaults && r.faults == NoFaults && WellKeyed(l.objects) && WellKeyed(r.objects)
  }

  /**
   * When both plans succeed and the synced cluster is ready for the
   * workspace stage, the three stages perform the plans' operations; they
   * issue no create when every key is already stored.
   */
  lemma StagesFromPlan(l: State, r: State, env: Env, pc: PolicyControl, reqNamespace: string)
    requires Healthy(l, r)
    requires SyncStagePlan(env, reqNamespace).1 == Pass && EdgePlan(env, pc).1 == Pass
    requires WorkspaceReady(Apply(SyncStagePlan(env, reqNamespace).0, l.objects), env, pc)
    ensures var x, a := Stages(l, r, env, pc, reqNamespace), Apply(SyncStagePlan(env, reqNamespace).0, l.objects);
      var r1 := Apply(EdgePlan(env, pc).0, r.objects);
      var lops := LocalOps(pc, env.builders, env.kubeConfig.value, a[TLSSourceKey(pc)], IngressAfter(a, pc, env.builders));
      var rops := RemoteOps(env, env.workspaceMapper.value, pc, a[TLSSourceKey(pc)]);
      && x.out == Pass && Healthy(x.local, x.remote)
      && x.local.objects == Apply(lops, a) && x.remote.objects == Apply(rops, r1)
      && (Keys(SyncStagePlan(env, reqNamespace).0) <= l.objects.Keys && Keys(lops) <= a.Keys
          ==> NoCreatesSince(l, x.local))
      && (Keys(EdgePlan(env, pc).0) <= r.objects.Keys && Keys(rops) <= r1.Keys
          ==> NoCreatesSince(r, x.remote))
  {
    var st1 := SyncStage(l, env, pc, reqNamespace);
    var st2 := EdgeStage(r, env, pc);
    SyncStageFollowsPlan(l, env, pc, reqNamespace);
    EdgeFollowsPlan(r, env, pc);
    WorkspaceEffect(st1.state, st2.state, env, pc);
    var a := st1.state.objects;
    var lops := LocalOps(pc, env.builders, env.kubeConfig.value, a[TLSSourceKey(pc)], IngressAfter(a, pc, env.builders));
    var w := WorkspaceStage(st1.state, st2.state, env, pc);
    if Keys(SyncStagePlan(env, reqNamespace).0) <= l.objects.Keys && Keys(lops) <= a.Keys {
      WorkspaceLocalNoCreates(st1.state, st2.state, env, pc);
      NoCreatesTrans(l, st1.state, w.local);
    }
    if Keys(EdgePlan(env, pc).0) <= r.objects.Keys && Keys(RemoteOps(env, env.workspaceMapper.value, pc, a[TLSSourceKey(pc)])) <= st2.state.objects.Keys {
      NoCreatesTrans(r, st2.state, w.remote);
    }
  }

  /** A successful pass ran both plans to success on a cluster the workspace stage was ready for. */
  lemma StagesPassIsPlanned(l: State, r: State, env: Env, pc: PolicyControl, reqNamespace: string)
    requires Healthy(l, r)
    requires Stages(l, r, env, pc, reqNamespace).out == Pass
    ensures SyncStagePlan(env, reqNamespace).1 == Pass && EdgePlan(env, pc).1 == Pass
    ensures WorkspaceReady(Apply(SyncStagePlan(env, reqNamespace).0, l.objects), env, pc)
  {
    var st1 := SyncStage(l, env, pc, reqNamespace);
    var st2 := EdgeStage(r, env, pc);
    SyncStageFollowsPlan(l, env, pc, reqNamespace);
    EdgeFollowsPlan(r, env, pc);
    WorkspacePassIsReady(st1.state, st2.state, env, pc);
  }

  /**
   * The ingress a second sync leaves yields the same merge as the one the
   * first sync left: when the syncer writes the shared ingress (an untyped
   * resource, so only ever by Put) it puts back what the first sync left;
   * otherwise the ingress the workspace stage wrote stays, and merges into
   * itself.
   */
  lemma ResyncIngress(sync: seq<Op>, m: Contents, m2: Contents, pc: PolicyControl, b: Builders)
    requires ManifestWrites(sync)
    requires IngressMergeable(Apply(sync, m), pc, b)
    requires IngressKey(pc) in m2 && m2[IngressKey(pc)] == IngressAfter(Apply(sync, m), pc, b)
    ensures var a, a' := Apply(sync, m), Apply(sync, m2);
      IngressMergeable(a', pc, b) && IngressAfter(a', pc, b) == IngressAfter(a, pc, b)
  {
    var k, a, a' := IngressKey(pc), Apply(sync, m), Apply(sync, m2);
    if k in Keys(sync) {
      forall i | 0 <= i < |sync| && sync[i].key == k
        ensures sync[i].Put?
      {
        assert k.resource !in TypedResources;
      }
      ApplyPutsDecide(sync, m2, m, k);
      IngressAfterFrame(a', a, pc, b);
    } else {
      ApplyOutside(sync, m2, k);
      IngressAfterStable(a, a', pc, b);
    }
  }

  /**
   * A second sync after the workspace stage keeps the TLS secret the stage
   * reads, and leaves an ingress from which the stage computes the same
   * result: the merged one when the sync does not write the ingress, the
   * synced manifest again when it does.
   */
  lemma ResyncKeepsWorkspaceInputs(sync: seq<Op>, m: Contents, env: Env, pc: PolicyControl)
    requires ManifestWrites(sync)
    requires WorkspaceReady(Apply(sync, m), env, pc)
    ensures var t, b, kc := TLSSourceKey(pc), env.builders, env.kubeConfig.value;
      var a := Apply(sync, m);
      var m2 := Apply(LocalOps(pc, b, kc, a[t], IngressAfter(a, pc, b)), a);
      var a' := Apply(sync, m2);
      && t in a' && a'[t] == a[t]
      && IngressMergeable(a', pc, b) && IngressAfter(a', pc, b) == IngressAfter(a, pc, b)
  {
    var t, b, kc := TLSSourceKey(pc), env.builders, env.kubeConfig.value;
    var k := IngressKey(pc);
    var a := Apply(sync, m);
    var ops := LocalOps(pc, b, kc, a[t], IngressAfter(a, pc, b));
    var m2 := Apply(ops, a);
    var a' := Apply(sync, m2);
    LocalOpsStable(a, env, pc);
    LocalOpsWriteIngress(a, pc, b, kc, a[t], IngressAfter(a, pc, b));
    ResyncIngress(sync, m, m2, pc, b);
    ApplyAgreeAt(sync, m2, a, t);
    ApplyIdempotent(sync, m);
  }

  /**
   * After a successful first pass the second sync leaves the cluster ready
   * for the workspace stage with the same local operations, every key of
   * which is stored, and the sync itself writes only stored keys.
   */
  lemma ResyncReady(sync: seq<Op>, m: Contents, env: Env, pc: PolicyControl)
    requires ManifestWrites(sync)
    requires WorkspaceReady(Apply(sync, m), env, pc)
    ensures var t, b, kc := TLSSourceKey(pc), env.builders, env.kubeConfig.value;
      var a := Apply(sync, m);
      var ops := LocalOps(pc, b, kc, a[t], IngressAfter(a, pc, b));
      var m2 := Apply(ops, a);
      var a' := Apply(sync, m2);
      && WorkspaceReady(a', env, pc) && a'[t] == a[t]
      && LocalOps(pc, b, kc, a'[t], IngressAfter(a', pc, b)) == ops
      && Keys(ops) <= a'.Keys && Keys(sync) <= m2.Keys
  {
    var t, b, kc := TLSSourceKey(pc), env.builders, env.kubeConfig.value;
    var a := Apply(sync, m);
    var ops := LocalOps(pc, b, kc, a[t], IngressAfter(a, pc, b));
    var m2 := Apply(ops, a);
    ResyncKeepsWorkspaceInputs(sync, m, env, pc);
    LocalOpsStable(a, env, pc);
    ApplyDomain(sync, m2);
    ApplyDomain(sync, m);
    ApplyDomain(ops, a);
  }

  /** Every key a rerun of the remote operations writes is already stored. */
  lemma RemoteKeysStored(edge: seq<Op>, rops: seq<Op>, r0: Contents)
    ensures var r2 := Apply(rops, Apply(edge, r0));
      Keys(edge) <= r2.Keys && Keys(rops) <= Apply(edge, r2).Keys
  {
    var r1 := Apply(edge, r0);
    var r2 := Apply(rops, r1);
    ApplyDomain(edge, r0);
    ApplyDomain(rops, r1);
    ApplyDomain(edge, r2);
  }

  /** The second run of the stages, on stores that hold what the planned first run left. */
  lemma SecondPass(xl: State, xr: State, l0: Contents, r0: Contents, env: Env, pc: PolicyControl, reqNamespace: string)
    requires Healthy(xl, xr)
    requires SyncStagePlan(env, reqNamespace).1 == Pass && EdgePlan(env, pc).1 == Pass
    requires WorkspaceReady(Apply(SyncStagePlan(env, reqNamespace).0, l0), env, pc)
    requires var a := Apply(SyncStagePlan(env, reqNamespace).0, l0); var t := TLSSourceKey(pc);
      && xl.objects == Apply(LocalOps(pc, env.builders, env.kubeConfig.value, a[t], IngressAfter(a, pc, env.builders)), a)
      && xr.objects == Apply(RemoteOps(env, env.workspaceMapper.value, pc, a[t]), Apply(EdgePlan(env, pc).0, r0))
    ensures var y := Stages(xl, xr, env, pc, reqNamespace);
      && y.out == Pass && y.local.objects == xl.objects && y.remote.objects == xr.objects
      && NoCreatesSince(xl, y.local) && NoCreatesSince(xr, y.remote)
  {
    var sync, edge := SyncStagePlan(env, reqNamespace).0, EdgePlan(env, pc).0;
    var t, b, kc := TLSSourceKey(pc), env.builders, env.kubeConfig.value;
    var a := Apply(sync, l0);
    var lops := LocalOps(pc, b, kc, a[t], IngressAfter(a, pc, b));
    var rops := RemoteOps(env, env.workspaceMapper.value, pc, a[t]);
    SyncStagePlanShape(env, reqNamespace);
    ResyncReady(sync, l0, env, pc);
    var a' := Apply(sync, xl.objects);
    assert LocalOps(pc, b, kc, a'[t], IngressAfter(a', pc, b)) == lops;
    assert RemoteOps(env, env.workspaceMapper.value, pc, a'[t]) == rops;
    RemoteKeysStored(edge, rops, r0);
    StagesFromPlan(xl, xr, env, pc, reqNamespace);
    TwoPhaseRerun(sync, lops, l0);
    TwoPhaseRerun(edge, rops, r0);
  }

  /**
   * Rerunning the stages on what a successful pass left succeeds again,
   * leaves both stores as they were and issues no create on either.
   */
  lemma StagesRerunIsNoOp(l: State, r: State, env: Env, pc: PolicyControl, reqNamespace: string)
    requires Healthy(l, r)
    requires Stages(l, r, env, pc, reqNamespace).out == Pass
    ensures var x := Stages(l, r, env, pc, reqNamespace); var y := Stages(x.local, x.remote, env, pc, reqNamespace);
      && Healthy(x.local, x.remote)
      && y.out == Pass && y.local.objects == x.local.objects && y.remote.objects == x.remote.objects
      && NoCreatesSince(x.local, y.local) && NoCreatesSince(x.remote, y.remote)
  {
    StagesPassIsPlanned(l, r, env, pc, reqNamespace);
    StagesFromPlan(l, r, env, pc, reqNamespace);
    var x := Stages(l, r, env, pc, reqNamespace);
    SecondPass(x.local, x.remote, l.objects, r.objects, env, pc, reqNamespace);
  }

  /** After a pass that succeeded the kcp secret is still readable. */
  lemma SecretStillReadable(l: State, r: State, env: Env, reqNamespace: string)
    requires Healthy(l, r) && CredentialReady(l, env)
    requires ReconcileSpec(l, r, env, reqNamespace).out == Pass
    ensures CredentialReady(ReconcileSpec(l, r, env, reqNamespace).local, env)
  {
    var pc := Target(env.pcLookup);
    var sync := SyncStagePlan(env, reqNamespace).0;
    StagesPassIsPlanned(l, r, env, pc, reqNamespace);
    StagesFromPlan(l, r, env, pc, reqNamespace);
    var a := Apply(sync, l.objects);
    ApplyDomain(sync, l.objects);
    var t, b, kc := TLSSourceKey(pc), env.builders, env.kubeConfig.value;
    ApplyDomain(LocalOps(pc, b, kc, a[t], IngressAfter(a, pc, b)), a);
  }

  /**
   * Reconciling again after a successful pass, with the same answers from
   * outside the stores, succeeds again, changes no stored object and
   * issues no create request on either store.
   */
  lemma ReconcileRerunIsNoOp(l: State, r: State, env: Env, reqNamespace: string)
    requires Healthy(l, r)
    requires ReconcileSpec(l, r, env, reqNamespace).out == Pass
    ensures var x := ReconcileSpec(l, r, env, reqNamespace); var y := ReconcileSpec(x.local, x.remote, env, reqNamespace);
      && y.out == Pass && y.local.objects == x.local.objects && y.remote.objects == x.remote.objects
      && NoCreatesSince(x.local, y.local) && NoCreatesSince(x.remote, y.remote)
  {
    if !env.pcLookup.NotFound? {
      var pc := Target(env.pcLookup);
      assert CredentialReady(l, env);
      SecretStillReadable(l, r, env, reqNamespace);
      StagesRerunIsNoOp(l, r, env, pc, reqNamespace);
    }
  }
}
