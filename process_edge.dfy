/**
 * The edge stage, against the kcp workspace: create-if-absent the install
 * namespace, the OperatorGroup and the Subscription, in that order, then
 * upsert the Kyverno custom resource through the dynamic client, ignoring a
 * failed update. The first failure ends the stage; nothing is undone.
 */
module ProcessEdge {
  import opened Wrappers
  import opened Objects
  import opened Api
  import opened Store
  import opened Bridge
  import opened Converge
  import opened Helper
  import opened SubscriptionResource

  function InstallNamespace(pc: PolicyControl): Obj {
    NamespaceObj(NamedMeta("", pc.spec.kyvernoInCluster.installNamespace))
  }

  function OperatorGroupFor(pc: PolicyControl, b: Builders): Obj {
    var (meta, body) := b.operatorGroup(pc);
    OperatorGroupObj(meta, body)
  }

  /** installKyvernoOnEdge, on the workspace store. */
  function EdgeStage(s: State, env: Env, pc: PolicyControl): Step {
    match env.edgeMapper
    case Err(e) => Step(s, Fail(e))
    case Ok(mapper) =>
      var st1 := CreateIfAbsent(s, InstallNamespace(pc));
      if st1.out.Fail? then st1 else
      var st2 := CreateIfAbsent(st1.state, OperatorGroupFor(pc, env.builders));
      if st2.out.Fail? then st2 else
      var st3 := CreateIfAbsent(st2.state, BuildSubscriptionForKyverno(pc));
      if st3.out.Fail? then st3 else
      var cr := env.builders.kyvernoCR(pc);
      if cr.Gk() !in mapper then Step(st3.state, Fail(MappingError(cr.Gk())))
      else UnstructuredUpsert(st3.state, mapper[cr.Gk()].resource, cr, true)
  }

  /** The Kyverno custom resource as the edge stage writes it, when its kind is mapped. */
  function KyvernoCRObj(env: Env, mapper: Mapper, pc: PolicyControl): Option<Obj> {
    var cr := env.builders.kyvernoCR(pc);
    if cr.Gk() in mapper then Some(FromManifest(mapper[cr.Gk()].resource, cr)) else None
  }

  /** The operations of the edge stage when no call fails, and its outcome. */
  function EdgePlan(env: Env, pc: PolicyControl): (p: (seq<Op>, Outcome<Error>))
    ensures KeyedOps(p.0)
  {
    match env.edgeMapper
    case Err(e) => ([], Fail(e))
    case Ok(mapper) =>
      var pre := Prerequisites(env, pc);
      match KyvernoCRObj(env, mapper, pc)
      case None => (pre, Fail(MappingError(env.builders.kyvernoCR(pc).Gk())))
      case Some(o) => (pre + [Put(o.Key(), o)], Pass)
  }

  method InstallKyvernoOnEdge(remote: Cluster, env: Env, pc: PolicyControl) returns (e: Outcome<Error>)
    modifies remote
    ensures Step(remote.Snapshot(), e) == EdgeStage(old(remote.Snapshot()), env, pc)
  {
    if env.edgeMapper.Err? {
      return Fail(env.edgeMapper.error);
    }
    var mapper := env.edgeMapper.value;
    e := EnsureCreated(remote, InstallNamespace(pc));
    if e.Fail? {
      return;
    }
    e := EnsureCreated(remote, OperatorGroupFor(pc, env.builders));
    if e.Fail? {
      return;
    }
    e := EnsureCreated(remote, BuildSubscriptionForKyverno(pc));
    if e.Fail? {
      return;
    }
    var kyvernoCR := env.builders.kyvernoCR(pc);
    if kyvernoCR.Gk() !in mapper {
      return Fail(MappingError(kyvernoCR.Gk()));
    }
    e := CreateOrUpdateUnstructuredResource(remote, mapper[kyvernoCR.Gk()].resource, kyvernoCR, true);
  }

  /** A failing workspace configuration is returned before anything is written. */
  lemma EdgeConfigFailsFirst(s: State, env: Env, pc: PolicyControl)
    requires env.edgeMapper.Err?
    ensures EdgeStage(s, env, pc) == Step(s, Fail(env.edgeMapper.error))
  {
  }

  /**
   * The namespace, the OperatorGroup and the Subscription are never updated:
   * every update the stage issues is of the Kyverno resource, and when its
   * kind is unmapped the stage issues no update at all.
   */
  lemma EdgeUpdatesOnlyKyvernoCR(s: State, env: Env, pc: PolicyControl)
    ensures var st := EdgeStage(s, env, pc).state;
      && |s.requests| <= |st.requests| && st.requests[..|s.requests|] == s.requests
      && forall i :: |s.requests| <= i < |st.requests| && st.requests[i].UpdateReq? ==>
           env.edgeMapper.Ok? && KyvernoCRObj(env, env.edgeMapper.value, pc).Some? &&
           st.requests[i].key == KyvernoCRObj(env, env.edgeMapper.value, pc).value.Key()
  {
    if env.edgeMapper.Ok? {
      var mapper := env.edgeMapper.value;
      var st1 := CreateIfAbsent(s, InstallNamespace(pc));
      CreateIfAbsentOnlyCreates(s, InstallNamespace(pc));
      if st1.out.Pass? {
        var st2 := CreateIfAbsent(st1.state, OperatorGroupFor(pc, env.builders));
        CreateIfAbsentOnlyCreates(st1.state, OperatorGroupFor(pc, env.builders));
        OnlyCreatesTrans(s, st1.state, st2.state);
        if st2.out.Pass? {
          var st3 := CreateIfAbsent(st2.state, BuildSubscriptionForKyverno(pc));
          CreateIfAbsentOnlyCreates(st2.state, BuildSubscriptionForKyverno(pc));
          OnlyCreatesTrans(s, st2.state, st3.state);
          var cr := env.builders.kyvernoCR(pc);
          if st3.out.Pass? && cr.Gk() in mapper {
            UnstructuredUpsertActsAsPut(st3.state, mapper[cr.Gk()].resource, cr, true);
          }
        }
      }
    }
  }

  /**
   * The update of the Kyverno resource is allowed to fail: once the three
   * prerequisites exist and the kind is mapped, a rejected update of an
   * existing resource still ends the stage successfully.
   */
  lemma EdgeIgnoresKyvernoCRUpdateFailure(s: State, env: Env, pc: PolicyControl)
    requires env.edgeMapper.Ok? && KyvernoCRObj(env, env.edgeMapper.value, pc).Some?
    requires var k := KyvernoCRObj(env, env.edgeMapper.value, pc).value.Key(); k in s.objects && k !in s.faults.getFails
    requires forall o :: o in [InstallNamespace(pc), OperatorGroupFor(pc, env.builders), BuildSubscriptionForKyverno(pc)] ==>
      o.Key() in s.objects && o.Key() !in s.faults.getFails
    ensures EdgeStage(s, env, pc).out == Pass
    ensures EdgeStage(s, env, pc).state.objects == s.objects || KyvernoCRObj(env, env.edgeMapper.value, pc).value.Key() !in s.faults.updateFails
  {
    assert InstallNamespace(pc) in [InstallNamespace(pc), OperatorGroupFor(pc, env.builders), BuildSubscriptionForKyverno(pc)];
    assert OperatorGroupFor(pc, env.builders) in [InstallNamespace(pc), OperatorGroupFor(pc, env.builders), BuildSubscriptionForKyverno(pc)];
    assert BuildSubscriptionForKyverno(pc) in [InstallNamespace(pc), OperatorGroupFor(pc, env.builders), BuildSubscriptionForKyverno(pc)];
  }

  /** The three create-if-absent operations, in order. */
  function Prerequisites(env: Env, pc: PolicyControl): seq<Op> {
    var ns, og, sub := InstallNamespace(pc), OperatorGroupFor(pc, env.builders), BuildSubscriptionForKyverno(pc);
    [Ensure(ns.Key(), ns), Ensure(og.Key(), og), Ensure(sub.Key(), sub)]
  }

  /** The state after the three create-if-absent steps when no call fails. */
  function AfterPrerequisites(s: State, env: Env, pc: PolicyControl): State {
    var st1 := CreateIfAbsent(s, InstallNamespace(pc));
    var st2 := CreateIfAbsent(st1.state, OperatorGroupFor(pc, env.builders));
    CreateIfAbsent(st2.state, BuildSubscriptionForKyverno(pc)).state
  }

  lemma PrerequisitesNoFaults(s: State, env: Env, pc: PolicyControl)
    requires s.faults == NoFaults && WellKeyed(s.objects)
    ensures var st1 := CreateIfAbsent(s, InstallNamespace(pc));
      var st2 := CreateIfAbsent(st1.state, OperatorGroupFor(pc, env.builders));
      var st3 := CreateIfAbsent(st2.state, BuildSubscriptionForKyverno(pc));
      && st1.out == Pass && st2.out == Pass && st3.out == Pass
      && st3.state == AfterPrerequisites(s, env, pc)
      && st3.state.faults == NoFaults
      && st3.state.objects == Apply(Prerequisites(env, pc), s.objects)
      && WellKeyed(st3.state.objects)
      && (Keys(Prerequisites(env, pc)) <= s.objects.Keys ==> st3.state.requests == s.requests)
  {
    var ns, og, sub := InstallNamespace(pc), OperatorGroupFor(pc, env.builders), BuildSubscriptionForKyverno(pc);
    var st1 := CreateIfAbsent(s, ns);
    CreateIfAbsentNoFaults(s, ns);
    var st2 := CreateIfAbsent(st1.state, og);
    CreateIfAbsentNoFaults(st1.state, og);
    CreateIfAbsentNoFaults(st2.state, sub);
    var pre := Prerequisites(env, pc);
    ApplyThree(pre[0], pre[1], pre[2], s.objects);
    ApplyWellKeyed(pre, s.objects);
    if Keys(pre) <= s.objects.Keys {
      assert pre[0].key in Keys(pre) && pre[1].key in Keys(pre) && pre[2].key in Keys(pre);
    }
  }

  /**
   * When no call fails the edge stage performs its plan, whatever the store
   * held; when every key of the plan is stored it issues no create.
   */
  lemma EdgeFollowsPlan(s: State, env: Env, pc: PolicyControl)
    requires s.faults == NoFaults && WellKeyed(s.objects)
    ensures var st, p := EdgeStage(s, env, pc), EdgePlan(env, pc);
      && st.out == p.1 && st.state.faults == NoFaults
      && st.state.objects == Apply(p.0, s.objects)
      && WellKeyed(st.state.objects)
      && (Keys(p.0) <= s.objects.Keys ==> NoCreatesSince(s, st.state))
  {
    if env.edgeMapper.Ok? {
      PrerequisitesNoFaults(s, env, pc);
      if KyvernoCRObj(env, env.edgeMapper.value, pc).Some? {
        EdgeWritesCR(s, env, pc);
      }
    }
  }

  /** The mapped case of EdgeFollowsPlan: after the prerequisites, the custom resource is put. */
  lemma EdgeWritesCR(s: State, env: Env, pc: PolicyControl)
    requires s.faults == NoFaults && WellKeyed(s.objects)
    requires env.edgeMapper.Ok? && KyvernoCRObj(env, env.edgeMapper.value, pc).Some?
    ensures var st, p := EdgeStage(s, env, pc), EdgePlan(env, pc);
      && st.out == Pass && st.state.faults == NoFaults
      && st.state.objects == Apply(p.0, s.objects)
      && WellKeyed(st.state.objects)
      && (Keys(p.0) <= s.objects.Keys ==> NoCreatesSince(s, st.state))
  {
    var p, mapper := EdgePlan(env, pc), env.edgeMapper.value;
    var pre := Prerequisites(env, pc);
    PrerequisitesNoFaults(s, env, pc);
    var s3 := AfterPrerequisites(s, env, pc);
    var cr := env.builders.kyvernoCR(pc);
    var o := FromManifest(mapper[cr.Gk()].resource, cr);
    var put := Put(o.Key(), o);
    UnstructuredUpsertNoFaults(s3, mapper[cr.Gk()].resource, cr, true);
    ApplyAppend(pre, [put], s.objects);
    assert Apply([put], s3.objects) == Exec(put, s3.objects);
    if Keys(p.0) <= s.objects.Keys {
      KeysAppend(pre, [put]);
      assert [put][0] == put && o.Key() in s.objects;
      ApplyDomain(pre, s.objects);
      assert s3.requests == s.requests;
    }
  }

  /**
   * Re-running a successful edge stage on its own result, when no call
   * fails, succeeds again, issues no create and leaves the store as it was.
   */
  lemma EdgeRerunIsNoOp(s: State, env: Env, pc: PolicyControl)
    requires s.faults == NoFaults && WellKeyed(s.objects)
    requires EdgeStage(s, env, pc).out == Pass
    ensures var s1 := EdgeStage(s, env, pc).state; var st2 := EdgeStage(s1, env, pc);
      && st2.out == Pass && st2.state.objects == s1.objects && NoCreatesSince(s1, st2.state)
  {
    var p := EdgePlan(env, pc);
    EdgeFollowsPlan(s, env, pc);
    var s1 := EdgeStage(s, env, pc).state;
    EdgeFollowsPlan(s1, env, pc);
    ApplyIdempotent(p.0, s.objects);
    ApplyDomain(p.0, s.objects);
  }

  /** The Subscription lives in the namespace the stage creates first. */
  lemma SubscriptionInInstallNamespace(pc: PolicyControl)
    ensures BuildSubscriptionForKyverno(pc).meta.namespace == InstallNamespace(pc).meta.name
  {
  }
}
