/**
 * The upsert primitive: get, then create when the get failed (for any
 * reason) or update when it succeeded. The typed variants read into the very
 * object they then update, so their update writes back what is stored; the
 * dynamic-client variant discards what it read and writes the desired object.
 */
module Helper {
  import opened Wrappers
  import opened Objects
  import opened Api
  import opened Store
  import opened Bridge
  import opened Converge

  /** SetControllerReference: the PolicyControl becomes the object's controller owner. */
  function WithOwner(o: Obj, pc: PolicyControl): (o': Obj)
    ensures o'.Key() == o.Key() && o'.meta.owner == Some(pc.name)
  {
    o.(meta := o.meta.(owner := Some(pc.name)))
  }

  /** createOrUpdate: a failed Get leads to Create of `o`; a successful Get to Update of the stored object. */
  function CreateOrUpdateStep(s: State, o: Obj): Step {
    match GetResult(s, o.Key())
    case Err(_) => CreateStep(s, o)
    case Ok(stored) => UpdateStep(s, stored)
  }

  /** createOrUpdateTypedResource: the optional owner step, then createOrUpdate. */
  function TypedUpsert(s: State, pc: PolicyControl, o: Obj, setOwner: bool, ownerOk: bool): Step {
    if setOwner && !ownerOk then Step(s, Fail(OwnershipError))
    else CreateOrUpdateStep(s, if setOwner then WithOwner(o, pc) else o)
  }

  /** createOrUpdateTypedResourceByUnstructured: convert the manifest, served as `resource`, then upsert it typed. */
  function TypedUpsertByUnstructured(s: State, pc: PolicyControl, resource: string, u: Unstructured,
                                     converts: bool, setOwner: bool, ownerOk: bool): Step {
    if !converts then Step(s, Fail(ConversionError(u.Gk())))
    else TypedUpsert(s, pc, FromManifest(resource, u), setOwner, ownerOk)
  }

  /** createOrUpdateUnstructuredResource: a failed Update counts as success when `ignore` is set. */
  function UnstructuredUpsert(s: State, resource: string, u: Unstructured, ignore: bool): Step {
    var o := FromManifest(resource, u);
    match GetResult(s, o.Key())
    case Err(_) => CreateStep(s, o)
    case Ok(_) =>
      var st := UpdateStep(s, o);
      if st.out.Fail? && ignore then Step(st.state, Pass) else st
  }

  /** getUnstructuredFromFile: read, decode and map a manifest file. */
  function LoadManifest(env: Env, mapper: Mapper, path: string): Result<(Unstructured, Mapping), Error> {
    if path !in env.files then Err(FileError(path))
    else match env.parse(env.files[path])
      case None => Err(ParseError(path))
      case Some(u) => if u.Gk() in mapper then Ok((u, mapper[u.Gk()])) else Err(MappingError(u.Gk()))
  }

  /** createOrUpdateUnstructuredResourceFromFile. */
  function FileUpsert(s: State, env: Env, mapper: Mapper, path: string, ignore: bool): Step {
    match LoadManifest(env, mapper, path)
    case Err(e) => Step(s, Fail(e))
    case Ok((u, m)) => UnstructuredUpsert(s, m.resource, u, ignore)
  }

  /** The create-if-absent steps of the stages: Create only when the Get fails, never Update. */
  function CreateIfAbsent(s: State, o: Obj): Step {
    if GetResult(s, o.Key()).Ok? then Step(s, Pass) else CreateStep(s, o)
  }

  // ---------------------------------------------------------------- methods

  method CreateOrUpdate(c: Cluster, o: Obj) returns (e: Outcome<Error>)
    modifies c
    ensures Step(c.Snapshot(), e) == CreateOrUpdateStep(old(c.Snapshot()), o)
  {
    var obj := o;
    var got := c.Get(obj.Key());
    if got.Err? {
      e := c.Create(obj);
    } else {
      obj := got.value;
      e := c.Update(obj);
    }
  }

  method CreateOrUpdateTypedResource(c: Cluster, pc: PolicyControl, typedObj: Obj, setOwner: bool, ownerOk: bool)
    returns (e: Outcome<Error>)
    modifies c
    ensures Step(c.Snapshot(), e) == TypedUpsert(old(c.Snapshot()), pc, typedObj, setOwner, ownerOk)
  {
    var obj := typedObj;
    if setOwner {
      if !ownerOk {
        return Fail(OwnershipError);
      }
      obj := WithOwner(obj, pc);
    }
    var got := c.Get(obj.Key());
    if got.Err? {
      e := c.Create(obj);
    } else {
      obj := got.value;
      e := c.Update(obj);
    }
  }

  method CreateOrUpdateTypedResourceByUnstructured(c: Cluster, pc: PolicyControl, resource: string, u: Unstructured,
                                                   converts: bool, setOwner: bool, ownerOk: bool)
    returns (e: Outcome<Error>)
    modifies c
    ensures Step(c.Snapshot(), e) == TypedUpsertByUnstructured(old(c.Snapshot()), pc, resource, u, converts, setOwner, ownerOk)
  {
    if !converts {
      return Fail(ConversionError(u.Gk()));
    }
    e := CreateOrUpdateTypedResource(c, pc, FromManifest(resource, u), setOwner, ownerOk);
  }

  method CreateOrUpdateUnstructuredResource(c: Cluster, resource: string, u: Unstructured, ignore: bool)
    returns (e: Outcome<Error>)
    modifies c
    ensures Step(c.Snapshot(), e) == UnstructuredUpsert(old(c.Snapshot()), resource, u, ignore)
  {
    var o := FromManifest(resource, u);
    var got := c.Get(o.Key());
    if got.Err? {
      e := c.Create(o);
    } else {
      e := c.Update(o);
      if e.Fail? && ignore {
        e := Pass;
      }
    }
  }

  method CreateOrUpdateUnstructuredResourceFromFile(c: Cluster, env: Env, mapper: Mapper, path: string, ignore: bool)
    returns (e: Outcome<Error>)
    modifies c
    ensures Step(c.Snapshot(), e) == FileUpsert(old(c.Snapshot()), env, mapper, path, ignore)
  {
    var loaded := LoadManifest(env, mapper, path);
    if loaded.Err? {
      return Fail(loaded.error);
    }
    var (u, m) := loaded.value;
    e := CreateOrUpdateUnstructuredResource(c, m.resource, u, ignore);
  }

  method EnsureCreated(c: Cluster, o: Obj) returns (e: Outcome<Error>)
    modifies c
    ensures Step(c.Snapshot(), e) == CreateIfAbsent(old(c.Snapshot()), o)
  {
    var got := c.Get(o.Key());
    if got.Err? {
      e := c.Create(o);
    } else {
      e := Pass;
    }
  }

  // ----------------------------------------------------------------- lemmas

  /** The one write request a Get-then-write upsert issues: Create exactly when the Get failed. */
  function WriteRequest(s: State, k: Key): Request {
    if GetResult(s, k).Ok? then UpdateReq(k) else CreateReq(k)
  }

  /** The error a failed write reports. */
  function WriteError(r: Request): Error {
    match r
    case CreateReq(k) => CreateFailed(k)
    case UpdateReq(k) => UpdateFailed(k)
  }

  /**
   * createOrUpdate issues exactly one write. On success the store gains `o`
   * when the key was free and is otherwise unchanged (the update writes back
   * what was read); on failure nothing changes and the error names the write.
   */
  lemma CreateOrUpdateActsAsEnsure(s: State, o: Obj)
    requires WellKeyed(s.objects)
    ensures var st, k := CreateOrUpdateStep(s, o), o.Key();
      && st.state.requests == s.requests + [WriteRequest(s, k)]
      && st.state.faults == s.faults
      && (st.out.Pass? ==> st.state.objects == Exec(Ensure(k, o), s.objects))
      && (st.out.Fail? ==> st.state.objects == s.objects &&
                           st.out.error == WriteError(WriteRequest(s, k)))
  {
    var k := o.Key();
    if GetResult(s, k).Ok? {
      assert s.objects[k].Key() == k;
      assert s.objects[k := s.objects[k]] == s.objects;
    }
  }

  /** An owner step that fails returns OwnershipError before the store is touched; otherwise the owner is set and createOrUpdate follows. */
  lemma TypedUpsertOwnerFirst(s: State, pc: PolicyControl, o: Obj, setOwner: bool, ownerOk: bool)
    ensures setOwner && !ownerOk ==> TypedUpsert(s, pc, o, setOwner, ownerOk) == Step(s, Fail(OwnershipError))
    ensures !setOwner ==> TypedUpsert(s, pc, o, setOwner, ownerOk) == CreateOrUpdateStep(s, o)
    ensures setOwner && ownerOk ==> TypedUpsert(s, pc, o, setOwner, ownerOk) == CreateOrUpdateStep(s, WithOwner(o, pc))
  {
  }

  /** A failed conversion returns before the store is touched. */
  lemma ConversionFailsFirst(s: State, pc: PolicyControl, resource: string, u: Unstructured, setOwner: bool, ownerOk: bool)
    ensures TypedUpsertByUnstructured(s, pc, resource, u, false, setOwner, ownerOk) == Step(s, Fail(ConversionError(u.Gk())))
  {
  }

  /**
   * The dynamic-client upsert issues exactly one write and writes the
   * desired object. A failed create is an error whatever `ignore` says; a
   * failed update leaves the store alone and is reported exactly when
   * `ignore` is unset.
   */
  lemma UnstructuredUpsertActsAsPut(s: State, resource: string, u: Unstructured, ignore: bool)
    ensures var st, o := UnstructuredUpsert(s, resource, u, ignore), FromManifest(resource, u);
      var k := o.Key();
      && st.state.requests == s.requests + [WriteRequest(s, k)]
      && st.state.faults == s.faults
      && (GetResult(s, k).Err? ==>
            (st.out.Pass? ==> st.state.objects == Exec(Put(k, o), s.objects)) &&
            (st.out.Fail? ==> st.state.objects == s.objects && st.out.error == CreateFailed(k)))
      && (GetResult(s, k).Ok? && k !in s.faults.updateFails ==>
            st.out.Pass? && st.state.objects == Exec(Put(k, o), s.objects))
      && (GetResult(s, k).Ok? && k in s.faults.updateFails ==>
            st.state.objects == s.objects && (st.out.Pass? <==> ignore))
  {
  }

  /** A manifest that cannot be read, decoded or mapped is an error before the store is touched. */
  lemma FileUpsertLoadsFirst(s: State, env: Env, mapper: Mapper, path: string, ignore: bool)
    ensures path !in env.files ==> FileUpsert(s, env, mapper, path, ignore) == Step(s, Fail(FileError(path)))
    ensures path in env.files && env.parse(env.files[path]).None? ==>
      FileUpsert(s, env, mapper, path, ignore) == Step(s, Fail(ParseError(path)))
    ensures path in env.files && env.parse(env.files[path]).Some? && env.parse(env.files[path]).value.Gk() !in mapper ==>
      FileUpsert(s, env, mapper, path, ignore) == Step(s, Fail(MappingError(env.parse(env.files[path]).value.Gk())))
  {
  }

  /** Create-if-absent never updates: it issues a create only when the Get fails, and keeps a stored object. */
  lemma CreateIfAbsentActsAsEnsure(s: State, o: Obj)
    ensures var st, k := CreateIfAbsent(s, o), o.Key();
      && st.state.requests == s.requests + (if GetResult(s, k).Ok? then [] else [CreateReq(k)])
      && st.state.faults == s.faults
      && (st.out.Pass? ==> st.state.objects == Exec(Ensure(k, o), s.objects))
      && (st.out.Fail? ==> st.state.objects == s.objects && st.out.error == CreateFailed(k))
  {
  }

  lemma CreateIfAbsentOnlyCreates(s: State, o: Obj)
    ensures OnlyCreatesSince(s, CreateIfAbsent(s, o).state)
  {
  }

  /**
   * The same typed upsert twice on a store without the key: one create, then
   * one update, and a single object, the one first created.
   */
  lemma TypedUpsertTwice(s: State, o1: Obj, o2: Obj)
    requires s.faults == NoFaults && WellKeyed(s.objects)
    requires o1.Key() == o2.Key() && o1.Key() !in s.objects
    ensures var st1 := CreateOrUpdateStep(s, o1); var st2 := CreateOrUpdateStep(st1.state, o2);
      && st1.out == Pass && st2.out == Pass
      && st2.state.requests == s.requests + [CreateReq(o1.Key()), UpdateReq(o1.Key())]
      && st2.state.objects == s.objects[o1.Key() := o1]
  {
    var st1 := CreateOrUpdateStep(s, o1);
    assert st1.state.objects[o1.Key()] == o1;
    CreateOrUpdateActsAsEnsure(st1.state, o2);
  }

  /** The same dynamic-client upsert twice on a store without the key: one create, then one update that writes the second desired object. */
  lemma UnstructuredUpsertTwice(s: State, resource: string, u1: Unstructured, u2: Unstructured, ignore: bool)
    requires s.faults == NoFaults
    requires FromManifest(resource, u1).Key() == FromManifest(resource, u2).Key()
    requires FromManifest(resource, u1).Key() !in s.objects
    ensures var st1 := UnstructuredUpsert(s, resource, u1, ignore); var st2 := UnstructuredUpsert(st1.state, resource, u2, ignore);
      var k := FromManifest(resource, u1).Key();
      && st1.out == Pass && st2.out == Pass
      && st2.state.requests == s.requests + [CreateReq(k), UpdateReq(k)]
      && st2.state.objects == s.objects[k := FromManifest(resource, u2)]
  {
  }

  // Fault-free forms, used by the stage proofs.

  lemma CreateOrUpdateNoFaults(s: State, o: Obj)
    requires s.faults == NoFaults && WellKeyed(s.objects)
    ensures var st, k := CreateOrUpdateStep(s, o), o.Key();
      && st.out == Pass && st.state.faults == NoFaults
      && st.state.objects == Exec(Ensure(k, o), s.objects)
      && st.state.requests == s.requests + [if k in s.objects then UpdateReq(k) else CreateReq(k)]
  {
    CreateOrUpdateActsAsEnsure(s, o);
  }

  lemma UnstructuredUpsertNoFaults(s: State, resource: string, u: Unstructured, ignore: bool)
    requires s.faults == NoFaults
    ensures var st, o := UnstructuredUpsert(s, resource, u, ignore), FromManifest(resource, u);
      && st.out == Pass && st.state.faults == NoFaults
      && st.state.objects == Exec(Put(o.Key(), o), s.objects)
      && st.state.requests == s.requests + [if o.Key() in s.objects then UpdateReq(o.Key()) else CreateReq(o.Key())]
  {
  }

  lemma CreateIfAbsentNoFaults(s: State, o: Obj)
    requires s.faults == NoFaults
    ensures var st, k := CreateIfAbsent(s, o), o.Key();
      && st.out == Pass && st.state.faults == NoFaults
      && st.state.objects == Exec(Ensure(k, o), s.objects)
      && st.state.requests == s.requests + (if k in s.objects then [] else [CreateReq(k)])
  {
  }
}
