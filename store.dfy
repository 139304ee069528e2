/**
 * An API server, reduced to a key-value store of objects with get, create and
 * update. Which calls fail is fixed per store by `Faults`; besides those, a
 * create fails when the key is already taken (AlreadyExists) and an update
 * fails when it is not (NotFound). Every create and update request, failed or
 * not, is recorded in `requests`.
 */
module Store {
  import opened Wrappers
  import opened Objects

  datatype Error =
    | GetFailed(key: Key)            // any error of a Get: not found, unreachable, undecodable
    | CreateFailed(key: Key)
    | UpdateFailed(key: Key)
    | OwnershipError                 // SetControllerReference failed
    | ConversionError(gk: GroupKind) // DefaultUnstructuredConverter.FromUnstructured failed
    | MappingError(gk: GroupKind)    // RESTMapper has no mapping for the group and kind
    | FileError(path: string)        // os.ReadFile failed
    | ParseError(path: string)       // yaml.Unmarshal failed on a manifest file
    | CommandError                   // a kcp command or the workspace configuration failed
    | NoRouteTarget(host: string)    // the shared ingress has no rule for the host
    | NilIngressPanic                // r.Update was handed a nil ingress
    | TempFileError                  // os.CreateTemp or Write failed

  datatype Request = CreateReq(key: Key) | UpdateReq(key: Key)

  /** The keys on which Get, Create and Update fail. */
  datatype Faults = Faults(getFails: set<Key>, createFails: set<Key>, updateFails: set<Key>)

  const NoFaults := Faults({}, {}, {})

  datatype State = State(objects: map<Key, Obj>, requests: seq<Request>, faults: Faults)

  /** The state after an operation and its outcome. */
  datatype Step = Step(state: State, out: Outcome<Error>)

  /** A typed or dynamic Get: the stored object, unless the Get fails. */
  function GetResult(s: State, k: Key): Result<Obj, Error> {
    if k in s.objects && k !in s.faults.getFails then Ok(s.objects[k]) else Err(GetFailed(k))
  }

  function CreateStep(s: State, o: Obj): Step {
    var k := o.Key();
    var s' := s.(requests := s.requests + [CreateReq(k)]);
    if k in s.objects || k in s.faults.createFails then Step(s', Fail(CreateFailed(k)))
    else Step(s'.(objects := s.objects[k := o]), Pass)
  }

  /** Update replaces the stored object wholesale. */
  function UpdateStep(s: State, o: Obj): Step {
    var k := o.Key();
    var s' := s.(requests := s.requests + [UpdateReq(k)]);
    if k !in s.objects || k in s.faults.updateFails then Step(s', Fail(UpdateFailed(k)))
    else Step(s'.(objects := s.objects[k := o]), Pass)
  }

  /** `s'` issued no create request after `s` (it only appended requests, none of them a create). */
  ghost predicate NoCreatesSince(s: State, s': State) {
    && |s.requests| <= |s'.requests|
    && s'.requests[..|s.requests|] == s.requests
    && forall i :: |s.requests| <= i < |s'.requests| ==> s'.requests[i].UpdateReq?
  }

  lemma NoCreatesTrans(s1: State, s2: State, s3: State)
    requires NoCreatesSince(s1, s2) && NoCreatesSince(s2, s3)
    ensures NoCreatesSince(s1, s3)
  {
    assert s3.requests[..|s1.requests|] == s3.requests[..|s2.requests|][..|s1.requests|];
  }

  /** `s'` issued only create requests after `s`. */
  ghost predicate OnlyCreatesSince(s: State, s': State) {
    && |s.requests| <= |s'.requests|
    && s'.requests[..|s.requests|] == s.requests
    && forall i :: |s.requests| <= i < |s'.requests| ==> s'.requests[i].CreateReq?
  }

  lemma OnlyCreatesTrans(s1: State, s2: State, s3: State)
    requires OnlyCreatesSince(s1, s2) && OnlyCreatesSince(s2, s3)
    ensures OnlyCreatesSince(s1, s3)
  {
    assert s3.requests[..|s1.requests|] == s3.requests[..|s2.requests|][..|s1.requests|];
  }

  /** A store the operator talks to. */
  class Cluster {
    var objects: map<Key, Obj>
    var requests: seq<Request>
    const faults: Faults

    function Snapshot(): State
      reads this
    {
      State(objects, requests, faults)
    }

    constructor (objects: map<Key, Obj>, faults: Faults)
      ensures Snapshot() == State(objects, [], faults)
    {
      this.objects := objects;
      this.requests := [];
      this.faults := faults;
    }

    method Get(k: Key) returns (r: Result<Obj, Error>)
      ensures r == GetResult(Snapshot(), k)
    {
      if k in objects && k !in faults.getFails {
        r := Ok(objects[k]);
      } else {
        r := Err(GetFailed(k));
      }
    }

    method Create(o: Obj) returns (e: Outcome<Error>)
      modifies this
      ensures Step(Snapshot(), e) == CreateStep(old(Snapshot()), o)
    {
      var k := o.Key();
      requests := requests + [CreateReq(k)];
      if k in objects || k in faults.createFails {
        e := Fail(CreateFailed(k));
      } else {
        objects := objects[k := o];
        e := Pass;
      }
    }

    method Update(o: Obj) returns (e: Outcome<Error>)
      modifies this
      ensures Step(Snapshot(), e) == UpdateStep(old(Snapshot()), o)
    {
      var k := o.Key();
      requests := requests + [UpdateReq(k)];
      if k !in objects || k in faults.updateFails {
        e := Fail(UpdateFailed(k));
      } else {
        objects := objects[k := o];
        e := Pass;
      }
    }
  }
}
