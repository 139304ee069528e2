/**
 * The sync stage: the kcp syncer manifests, as one `---`-separated text,
 * are split, decoded one by one and upserted into the local cluster. A
 * segment that does not decode is skipped; the first failed upsert ends
 * the stage.
 */
module ProcessPco {
  import opened Wrappers
  import opened Objects
  import opened Api
  import opened Store
  import opened Bridge
  import opened Converge
  import opened Helper

  const Sep := "---"

  // ------------------------------------------------------- strings.Split

  /** `sub` occurs somewhere in `s` (strings.Contains). */
  function Contains(s: string, sub: string): bool
    decreases |s|
  {
    if |s| < |sub| then false else s[..|sub|] == sub || Contains(s[1..], sub)
  }

  /** `sub` occurs in `s` at position `i`. */
  predicate OccursAt(s: string, sub: string, i: int) {
    0 <= i <= |s| - |sub| && s[i..i + |sub|] == sub
  }

  /** The occurrence-by-position reading of Contains. */
  lemma {:induction false} ContainsIff(s: string, sub: string)
    ensures Contains(s, sub) <==> exists i :: OccursAt(s, sub, i)
    decreases |s|
  {
    if |s| >= |sub| {
      if s[..|sub|] == sub {
        assert OccursAt(s, sub, 0);
      } else {
        ContainsIff(s[1..], sub);
        if Contains(s[1..], sub) {
          var i :| OccursAt(s[1..], sub, i);
          assert s[i + 1..i + 1 + |sub|] == s[1..][i..i + |sub|];
          assert OccursAt(s, sub, i + 1);
        }
        if exists i :: OccursAt(s, sub, i) {
          var i :| OccursAt(s, sub, i);
          assert i != 0;
          assert s[1..][i - 1..i - 1 + |sub|] == s[i..i + |sub|];
          assert OccursAt(s[1..], sub, i - 1);
        }
      }
    }
  }

  /**
   * strings.Split(s, "---"): cut at every occurrence, leftmost first and
   * without overlap. The first piece is a prefix of `s`.
   */
  function Split(s: string): (parts: seq<string>)
    ensures |parts| >= 1 && parts[0] <= s
    decreases |s|
  {
    if |s| < 3 then [s]
    else if s[..3] == Sep then [""] + Split(s[3..])
    else
      var r := Split(s[1..]);
      [[s[0]] + r[0]] + r[1..]
  }

  /** strings.Join(parts, "---"). */
  function Join(parts: seq<string>): string
    requires |parts| >= 1
  {
    parts[0] + JoinTail(parts[1..])
  }

  /** Each part preceded by the separator. */
  function JoinTail(parts: seq<string>): string
    decreases |parts|
  {
    if parts == [] then "" else Sep + parts[0] + JoinTail(parts[1..])
  }

  lemma JoinPrefix(x: string, parts: seq<string>)
    requires |parts| >= 1
    ensures Join([x + parts[0]] + parts[1..]) == x + Join(parts)
  {
    var q := [x + parts[0]] + parts[1..];
    assert q[1..] == parts[1..];
  }

  /** Joining the pieces with the separator gives back the text: nothing is lost or reordered. */
  lemma {:induction false} JoinSplit(s: string)
    ensures Join(Split(s)) == s
    decreases |s|
  {
    if |s| >= 3 {
      if s[..3] == Sep {
        JoinSplit(s[3..]);
        var parts := Split(s);
        assert parts[1..] == Split(s[3..]);
        assert JoinTail(Split(s[3..])) == Sep + Join(Split(s[3..]));
        assert s == s[..3] + s[3..];
      } else {
        JoinSplit(s[1..]);
        JoinPrefix([s[0]], Split(s[1..]));
        assert s == [s[0]] + s[1..];
      }
    }
  }

  /**
   * No occurrence of the separator starts inside the first piece, and a
   * single piece is the whole text: the first cut is at the leftmost
   * occurrence, and there is none when nothing is cut.
   */
  lemma {:induction false} SplitFirstCutLeftmost(s: string)
    ensures var p0 := Split(s)[0];
      && (forall j :: 0 <= j < |p0| ==> !OccursAt(s, Sep, j))
      && (|Split(s)| == 1 ==> p0 == s)
    decreases |s|
  {
    if |s| >= 3 && s[..3] != Sep {
      var r := Split(s[1..]);
      SplitFirstCutLeftmost(s[1..]);
      assert Split(s)[0] == [s[0]] + r[0];
      forall j | 0 < j < 1 + |r[0]| ensures !OccursAt(s, Sep, j) {
        if OccursAt(s, Sep, j) {
          assert s[1..][j - 1..j - 1 + |Sep|] == s[j..j + |Sep|];
          assert OccursAt(s[1..], Sep, j - 1);
        }
      }
      if |r| == 1 {
        assert s == [s[0]] + s[1..];
      }
    }
  }

  /**
   * With more than one piece, the first piece ends where an occurrence of
   * the separator starts, and the other pieces are the split of what
   * follows it.
   */
  lemma {:induction false} SplitCutsAtFirstSep(s: string)
    ensures var parts := Split(s);
      |parts| > 1 ==>
        && OccursAt(s, Sep, |parts[0]|)
        && parts[1..] == Split(s[|parts[0]| + |Sep|..])
    decreases |s|
  {
    if |s| >= 3 && s[..3] != Sep {
      var r := Split(s[1..]);
      SplitCutsAtFirstSep(s[1..]);
      if |r| > 1 {
        var n := |r[0]|;
        assert s[1 + n..1 + n + |Sep|] == s[1..][n..n + |Sep|];
        assert s[1..][n + |Sep|..] == s[1 + n + |Sep|..];
        assert Split(s)[1..] == r[1..];
      }
    }
  }

  /** No piece contains the separator. */
  lemma {:induction false} SplitPiecesHaveNoSep(s: string)
    ensures forall i :: 0 <= i < |Split(s)| ==> !Contains(Split(s)[i], Sep)
    decreases |s|
  {
    if |s| >= 3 {
      if s[..3] == Sep {
        SplitPiecesHaveNoSep(s[3..]);
        assert Split(s)[1..] == Split(s[3..]);
      } else {
        SplitPiecesHaveNoSep(s[1..]);
        var r := Split(s[1..]);
        var p := [s[0]] + r[0];
        assert Split(s)[1..] == r[1..];
        assert p[1..] == r[0];
        if |p| >= 3 {
          assert p[..3] == s[..3];
        }
      }
    }
  }

  // ------------------------------------------------- createOrUpdateResource

  /** The resources that take the typed path; everything else takes the dynamic client. */
  const TypedResources: set<string> :=
    {"configmaps", "secrets", "services", "clusterroles", "serviceaccounts", "customresourcedefinitions"}

  const SyncerRoleMarker := "kcp-syncer-"

  /** The rules granted to the syncer's ClusterRole: everything on Kyverno policies and on the Kyverno operator's resource. */
  const KyvernoRules: seq<PolicyRule> := [
    PolicyRule(["*"], ["policies"], ["kyverno.io"]),
    PolicyRule(["*"], ["kyvernoes"], ["operator.kyverno.io"])
  ]

  /** A namespaced object without a namespace gets the request's namespace; anything else keeps its own. */
  function DefaultNamespace(u: Unstructured, m: Mapping, reqNamespace: string): (u': Unstructured)
    ensures u'.meta.namespace == if m.namespaced && u.meta.namespace == "" then reqNamespace else u.meta.namespace
    ensures u' == u.(meta := u.meta.(namespace := u'.meta.namespace))
  {
    if m.namespaced && u.meta.namespace == "" then u.(meta := u.meta.(namespace := reqNamespace)) else u
  }

  /** The syncer's ClusterRole with the Kyverno rules appended after its own. */
  function AugmentSyncerRole(u: Unstructured): Unstructured {
    u.(rules := u.rules + KyvernoRules)
  }

  predicate IsSyncerRole(resource: string, u: Unstructured) {
    resource == "clusterroles" && Contains(u.meta.name, SyncerRoleMarker)
  }

  /** createOrUpdateResource, on the local cluster. No branch sets an owner. */
  function ResourceUpsert(s: State, env: Env, pc: PolicyControl, reqNamespace: string, u: Unstructured): Step {
    var gk := u.Gk();
    if gk !in env.localMapper then Step(s, Fail(MappingError(gk)))
    else
      var m := env.localMapper[gk];
      var obj := DefaultNamespace(u, m, reqNamespace);
      if IsSyncerRole(m.resource, obj) then
        if !env.converts(obj) then Step(s, Fail(ConversionError(gk)))
        else TypedUpsert(s, pc, FromManifest(m.resource, AugmentSyncerRole(obj)), false, false)
      else if m.resource in TypedResources then
        TypedUpsertByUnstructured(s, pc, m.resource, obj, env.converts(obj), false, false)
      else UnstructuredUpsert(s, m.resource, obj, false)
  }

  /**
   * What createOrUpdateResource does to a store on which no call fails:
   * an error decided before the store is touched, or one operation.
   */
  function ResourcePlan(env: Env, reqNamespace: string, u: Unstructured): Result<Op, Error> {
    var gk := u.Gk();
    if gk !in env.localMapper then Err(MappingError(gk))
    else
      var m := env.localMapper[gk];
      var obj := DefaultNamespace(u, m, reqNamespace);
      if m.resource in TypedResources && !env.converts(obj) then Err(ConversionError(gk))
      else
        var o := FromManifest(m.resource, if IsSyncerRole(m.resource, obj) then AugmentSyncerRole(obj) else obj);
        if m.resource in TypedResources then Ok(Ensure(o.Key(), o)) else Ok(Put(o.Key(), o))
  }

  /** A mapping or conversion failure returns before any store access, whatever the store does. */
  lemma ResourceUpsertFailsEarly(s: State, env: Env, pc: PolicyControl, reqNamespace: string, u: Unstructured)
    requires ResourcePlan(env, reqNamespace, u).Err?
    ensures ResourceUpsert(s, env, pc, reqNamespace, u) == Step(s, Fail(ResourcePlan(env, reqNamespace, u).error))
  {
  }

  /**
   * The dispatch table: a mapped manifest becomes one write of the manifest
   * under its mapped resource, with the namespace defaulted and no owner set;
   * the write keeps what is stored exactly for the typed resources; only a
   * syncer ClusterRole gains rules, exactly the two Kyverno rules after its own.
   */
  lemma ResourcePlanTable(env: Env, reqNamespace: string, u: Unstructured)
    requires ResourcePlan(env, reqNamespace, u).Ok?
    ensures var op, m := ResourcePlan(env, reqNamespace, u).value, env.localMapper[u.Gk()];
      var obj := DefaultNamespace(u, m, reqNamespace);
      && u.Gk() in env.localMapper
      && op.obj.Key() == op.key == ObjectKey(m.resource, obj.meta.namespace, u.meta.name)
      && op.obj.meta == obj.meta && op.obj.meta.owner == u.meta.owner
      && (op.Ensure? <==> m.resource in TypedResources)
      && (m.resource in TypedResources ==> env.converts(obj))
      && op.obj.ManifestObj?
      && op.obj.rules == if IsSyncerRole(m.resource, obj) then u.rules + KyvernoRules else u.rules
  {
  }

  /** On a store where no call fails, createOrUpdateResource performs its plan. */
  lemma ResourceUpsertFollowsPlan(s: State, env: Env, pc: PolicyControl, reqNamespace: string, u: Unstructured)
    requires s.faults == NoFaults && WellKeyed(s.objects)
    ensures var p, st := ResourcePlan(env, reqNamespace, u), ResourceUpsert(s, env, pc, reqNamespace, u);
      && (p.Err? ==> st == Step(s, Fail(p.error)))
      && (p.Ok? ==>
            && p.value.obj.Key() == p.value.key
            && st.out == Pass && st.state.faults == NoFaults
            && st.state.objects == Exec(p.value, s.objects)
            && st.state.requests == s.requests + [if p.value.key in s.objects then UpdateReq(p.value.key) else CreateReq(p.value.key)])
  {
    var p := ResourcePlan(env, reqNamespace, u);
    if p.Ok? {
      var m := env.localMapper[u.Gk()];
      var obj := DefaultNamespace(u, m, reqNamespace);
      if IsSyncerRole(m.resource, obj) {
        CreateOrUpdateNoFaults(s, FromManifest(m.resource, AugmentSyncerRole(obj)));
      } else if m.resource in TypedResources {
        CreateOrUpdateNoFaults(s, FromManifest(m.resource, obj));
      } else {
        UnstructuredUpsertNoFaults(s, m.resource, obj, false);
      }
    }
  }

  // ---------------------------------------------------------------- syncPCO

  /** The loop of syncPCO over the segments. */
  function SyncSegments(s: State, env: Env, pc: PolicyControl, reqNamespace: string, segs: seq<string>): Step
    decreases |segs|
  {
    if segs == [] then Step(s, Pass)
    else match env.parse(segs[0])
      case None => SyncSegments(s, env, pc, reqNamespace, segs[1..])
      case Some(u) =>
        var st := ResourceUpsert(s, env, pc, reqNamespace, u);
        if st.out.Fail? then st else SyncSegments(st.state, env, pc, reqNamespace, segs[1..])
  }

  /** syncPCO: a failing syncWorkspace is returned before anything is written. */
  function SyncStage(s: State, env: Env, pc: PolicyControl, reqNamespace: string): Step {
    match env.syncOutput
    case Err(e) => Step(s, Fail(e))
    case Ok(blob) => SyncSegments(s, env, pc, reqNamespace, Split(blob))
  }

  /**
   * The operations of the segment loop when no call fails: the plans of the
   * decoded segments in order, up to the first one whose plan is an error.
   */
  function SyncPlan(env: Env, reqNamespace: string, segs: seq<string>): (p: (seq<Op>, Outcome<Error>))
    ensures KeyedOps(p.0)
    decreases |segs|
  {
    if segs == [] then ([], Pass)
    else match env.parse(segs[0])
      case None => SyncPlan(env, reqNamespace, segs[1..])
      case Some(u) =>
        match ResourcePlan(env, reqNamespace, u)
        case Err(e) => ([], Fail(e))
        case Ok(op) =>
          ResourcePlanTable(env, reqNamespace, u);
          var r := SyncPlan(env, reqNamespace, segs[1..]);
          ([op] + r.0, r.1)
  }

  /**
   * On a store where no call fails the segment loop performs its plan: the
   * store ends as the plan's operations applied in order, and the outcome is
   * the plan's, whatever the store held. When every key of the plan is
   * already stored, it issues no create.
   */
  lemma {:induction false} SyncSegmentsFollowPlan(s: State, env: Env, pc: PolicyControl, reqNamespace: string, segs: seq<string>)
    requires s.faults == NoFaults && WellKeyed(s.objects)
    ensures var st, p := SyncSegments(s, env, pc, reqNamespace, segs), SyncPlan(env, reqNamespace, segs);
      && st.out == p.1 && st.state.faults == NoFaults
      && st.state.objects == Apply(p.0, s.objects)
      && WellKeyed(st.state.objects)
      && (Keys(p.0) <= s.objects.Keys ==> NoCreatesSince(s, st.state))
    decreases |segs|
  {
    if segs == [] {
    } else {
      match env.parse(segs[0])
      case None =>
        SyncSegmentsFollowPlan(s, env, pc, reqNamespace, segs[1..]);
      case Some(u) =>
        ResourceUpsertFollowsPlan(s, env, pc, reqNamespace, u);
        var rp := ResourcePlan(env, reqNamespace, u);
        if rp.Ok? {
          var op := rp.value;
          var s1 := ResourceUpsert(s, env, pc, reqNamespace, u).state;
          var r := SyncPlan(env, reqNamespace, segs[1..]);
          assert SyncPlan(env, reqNamespace, segs).0 == [op] + r.0;
          SyncSegmentsFollowPlan(s1, env, pc, reqNamespace, segs[1..]);
          OneThenRest(s, s1, SyncSegments(s1, env, pc, reqNamespace, segs[1..]).state, op, r.0);
        }
    }
  }

  /** The plan of syncPCO: nothing when the syncer manifests cannot be produced, else the segment loop's. */
  function SyncStagePlan(env: Env, reqNamespace: string): (p: (seq<Op>, Outcome<Error>))
    ensures KeyedOps(p.0)
  {
    match env.syncOutput
    case Err(e) => ([], Fail(e))
    case Ok(blob) => SyncPlan(env, reqNamespace, Split(blob))
  }

  /** On a store where no call fails syncPCO performs its plan, and issues no create when every key of it is stored. */
  lemma SyncStageFollowsPlan(s: State, env: Env, pc: PolicyControl, reqNamespace: string)
    requires s.faults == NoFaults && WellKeyed(s.objects)
    ensures var st, p := SyncStage(s, env, pc, reqNamespace), SyncStagePlan(env, reqNamespace);
      && st.out == p.1 && st.state.faults == NoFaults
      && st.state.objects == Apply(p.0, s.objects)
      && WellKeyed(st.state.objects)
      && (Keys(p.0) <= s.objects.Keys ==> NoCreatesSince(s, st.state))
  {
    if env.syncOutput.Ok? {
      SyncSegmentsFollowPlan(s, env, pc, reqNamespace, Split(env.syncOutput.value));
    } else {
      assert s.requests[..|s.requests|] == s.requests;
    }
  }

  /** Every write is a manifest, and only the typed resources are written keep-what-is-stored. */
  ghost predicate ManifestWrites(ops: seq<Op>) {
    forall i :: 0 <= i < |ops| ==> ops[i].obj.ManifestObj? && (ops[i].Ensure? ==> ops[i].key.resource in TypedResources)
  }

  /** The sync loop writes manifests only, and replaces everything but the typed resources. */
  lemma {:induction false} SyncPlanShape(env: Env, reqNamespace: string, segs: seq<string>)
    ensures ManifestWrites(SyncPlan(env, reqNamespace, segs).0)
    decreases |segs|
  {
    if segs != [] {
      SyncPlanShape(env, reqNamespace, segs[1..]);
      var r := SyncPlan(env, reqNamespace, segs[1..]).0;
      match env.parse(segs[0])
      case None =>
        assert SyncPlan(env, reqNamespace, segs).0 == r;
      case Some(u) =>
        if ResourcePlan(env, reqNamespace, u).Ok? {
          ResourcePlanTable(env, reqNamespace, u);
          var op := ResourcePlan(env, reqNamespace, u).value;
          var ops := SyncPlan(env, reqNamespace, segs).0;
          assert ops == [op] + r;
          assert op.obj.ManifestObj? && (op.Ensure? ==> op.key.resource in TypedResources);
          forall i | 0 <= i < |ops| ensures ops[i].obj.ManifestObj? && (ops[i].Ensure? ==> ops[i].key.resource in TypedResources) {
            if i == 0 { assert ops[i] == op; } else { assert ops[i] == r[i - 1]; }
          }
        }
    }
  }

  lemma SyncStagePlanShape(env: Env, reqNamespace: string)
    ensures ManifestWrites(SyncStagePlan(env, reqNamespace).0)
  {
    if env.syncOutput.Ok? {
      SyncPlanShape(env, reqNamespace, Split(env.syncOutput.value));
    }
  }

  /**
   * One operation performed with its single write, then the rest of a plan:
   * together they perform the whole plan, and issue no create when every
   * key of the plan is stored.
   */
  lemma OneThenRest(s: State, s1: State, fin: State, op: Op, rest: seq<Op>)
    requires s1.objects == Exec(op, s.objects)
    requires s1.requests == s.requests + [if op.key in s.objects then UpdateReq(op.key) else CreateReq(op.key)]
    requires fin.objects == Apply(rest, s1.objects)
    requires Keys(rest) <= s1.objects.Keys ==> NoCreatesSince(s1, fin)
    ensures fin.objects == Apply([op] + rest, s.objects)
    ensures Keys([op] + rest) <= s.objects.Keys ==> NoCreatesSince(s, fin)
  {
    ApplyCons(op, rest, s.objects);
    if Keys([op] + rest) <= s.objects.Keys {
      KeysCons(op, rest);
      assert op.key in s.objects;
      assert s1.objects.Keys >= s.objects.Keys;
      NoCreatesTrans(s, s1, fin);
    }
  }

  // ---------------------------------------------------------------- methods

  method CreateOrUpdateResource(local: Cluster, env: Env, pc: PolicyControl, reqNamespace: string, u: Unstructured)
    returns (e: Outcome<Error>)
    modifies local
    ensures Step(local.Snapshot(), e) == ResourceUpsert(old(local.Snapshot()), env, pc, reqNamespace, u)
  {
    var gk := u.Gk();
    if gk !in env.localMapper {
      return Fail(MappingError(gk));
    }
    var mapping := env.localMapper[gk];
    var obj := DefaultNamespace(u, mapping, reqNamespace);
    if mapping.resource == "clusterroles" && Contains(obj.meta.name, SyncerRoleMarker) {
      if !env.converts(obj) {
        return Fail(ConversionError(gk));
      }
      var clusterRole := FromManifest(mapping.resource, AugmentSyncerRole(obj));
      e := CreateOrUpdateTypedResource(local, pc, clusterRole, false, false);
    } else if mapping.resource in TypedResources {
      e := CreateOrUpdateTypedResourceByUnstructured(local, pc, mapping.resource, obj, env.converts(obj), false, false);
    } else {
      e := CreateOrUpdateUnstructuredResource(local, mapping.resource, obj, false);
    }
  }

  method SyncPCO(local: Cluster, env: Env, pc: PolicyControl, reqNamespace: string) returns (e: Outcome<Error>)
    modifies local
    ensures Step(local.Snapshot(), e) == SyncStage(old(local.Snapshot()), env, pc, reqNamespace)
  {
    if env.syncOutput.Err? {
      return Fail(env.syncOutput.error);
    }
    var segs := Split(env.syncOutput.value);
    ghost var s0 := local.Snapshot();
    var i := 0;
    while i < |segs|
      invariant 0 <= i <= |segs|
      invariant SyncSegments(s0, env, pc, reqNamespace, segs) == SyncSegments(local.Snapshot(), env, pc, reqNamespace, segs[i..])
    {
      assert segs[i..][0] == segs[i] && segs[i..][1..] == segs[i + 1..];
      var parsed := env.parse(segs[i]);
      if parsed.Some? {
        e := CreateOrUpdateResource(local, env, pc, reqNamespace, parsed.value);
        if e.Fail? {
          return;
        }
      }
      i := i + 1;
    }
    return Pass;
  }
}
