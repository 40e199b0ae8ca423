/**
 * The dynamic Kubernetes client wrapper: pkg/dynamic/dynamic.go. The
 * cluster's answers are the oracle `cluster`; the wrapper keeps its
 * per-call timeout as a mutable field.
 */
module Dynamic {
  import opened Wrappers
  import opened Errors
  import opened Text
  import opened Kube

  /** defaultTimeout: 60 seconds, in nanoseconds. */
  const DefaultTimeout: int := 60_000_000_000

  /** The API version constraints are listed at. */
  const ConstraintsApiVersion: string := "v1beta1"

  const ConstraintTemplateGVR: GroupVersionResource :=
    GroupVersionResource("templates.gatekeeper.sh", "v1beta1", "constrainttemplates")

  /** A constraint with audit violations: its status.violations is a list. */
  predicate HasViolations(o: Object) {
    NestedSlice(o.content, ["status", "violations"]).Some?
  }

  /** Recording the violated constraints among listed objects by UID, a later one replacing an earlier one. */
  function Index(m: map<string, Object>, objs: seq<Object>): map<string, Object>
    decreases |objs|
  {
    if objs == [] then m
    else
      var m' := Index(m, objs[..|objs| - 1]);
      var o := objs[|objs| - 1];
      if HasViolations(o) then m'[o.uid := o] else m'
  }

  /** The objects of every listed group resource at version v1beta1, in order, or the first listing error. */
  function ListAll(cluster: Cluster, groupResources: seq<GroupResource>): Result<seq<Object>, Error>
    decreases |groupResources|
  {
    if groupResources == [] then Ok([])
    else
      match ListAll(cluster, groupResources[..|groupResources| - 1])
      case Err(e) => Err(e)
      case Ok(objs) =>
        match cluster.list(groupResources[|groupResources| - 1].WithVersion(ConstraintsApiVersion))
        case Err(e) => Err(e)
        case Ok(more) => Ok(objs + more)
  }

  /** What GetViolatedConstraints returns. */
  function ViolatedConstraints(cluster: Cluster, groupResources: seq<GroupResource>): Result<map<string, Object>, Error> {
    match ListAll(cluster, groupResources)
    case Err(e) => Err(e)
    case Ok(objs) => Ok(Index(map[], objs))
  }

  /** The last violated object of a UID among the listed objects. */
  predicate LastViolated(objs: seq<Object>, uid: string, i: int) {
    0 <= i < |objs| && objs[i].uid == uid && HasViolations(objs[i]) &&
    forall j | i < j < |objs| :: objs[j].uid == uid ==> !HasViolations(objs[j])
  }

  /** Index(m, a + b) is Index(Index(m, a), b). */
  lemma {:induction false} IndexAppend(m: map<string, Object>, a: seq<Object>, b: seq<Object>)
    ensures Index(m, a + b) == Index(Index(m, a), b)
    decreases |b|
  {
    if b == [] {
      assert a + b == a;
    } else {
      assert (a + b)[..|a + b| - 1] == a + b[..|b| - 1];
      IndexAppend(m, a, b[..|b| - 1]);
    }
  }

  /**
   * The violated constraints are keyed by UID: a UID is a key exactly when some listed object of
   * that UID has violations, and the entry is the last such object.
   */
  lemma {:induction false} IndexKeepsLastViolated(objs: seq<Object>, uid: string)
    ensures uid in Index(map[], objs) <==> exists i | 0 <= i < |objs| :: objs[i].uid == uid && HasViolations(objs[i])
    ensures uid in Index(map[], objs) ==> exists i :: LastViolated(objs, uid, i) && Index(map[], objs)[uid] == objs[i]
    decreases |objs|
  {
    if objs != [] {
      var n := |objs| - 1;
      var init := objs[..n];
      IndexKeepsLastViolated(init, uid);
      var o := objs[n];
      if o.uid == uid && HasViolations(o) {
        assert LastViolated(objs, uid, n);
      } else {
        assert Index(map[], objs) == Index(map[], init) || Index(map[], objs) == Index(map[], init)[o.uid := o];
        if uid in Index(map[], init) {
          var i :| LastViolated(init, uid, i) && Index(map[], init)[uid] == init[i];
          assert objs[i] == init[i];
          assert LastViolated(objs, uid, i);
        }
        if exists i | 0 <= i < |objs| :: objs[i].uid == uid && HasViolations(objs[i]) {
          var i :| 0 <= i < |objs| && objs[i].uid == uid && HasViolations(objs[i]);
          assert i < n && init[i] == objs[i];
        }
      }
    }
  }

  /** Every entry of the result is a listed object with violations, stored under its own UID. */
  lemma ViolatedConstraintsSound(cluster: Cluster, groupResources: seq<GroupResource>, uid: string)
    requires ViolatedConstraints(cluster, groupResources).Ok?
    requires uid in ViolatedConstraints(cluster, groupResources).value
    ensures var o := ViolatedConstraints(cluster, groupResources).value[uid];
      o.uid == uid && HasViolations(o) && o in ListAll(cluster, groupResources).value
  {
    var objs := ListAll(cluster, groupResources).value;
    IndexKeepsLastViolated(objs, uid);
  }

  /** The template of a constraint kind is named after the kind, lower-cased. */
  function TemplateName(constraintKind: string): (name: string)
    ensures |name| == |constraintKind|
    ensures ToLower(name) == name
    ensures EqualFold(name, constraintKind)
  {
    ToLower(constraintKind)
  }

  /** What GetResourceByKind's loop leaves in r as written: it stops at the first failing lookup. */
  function LookupAsWritten(cluster: Cluster, gvrs: seq<GroupVersionResource>, name: string, namespace: string,
                           r: Option<Object>): Option<Object>
    decreases |gvrs|
  {
    if gvrs == [] then r
    else
      match cluster.get(gvrs[0], name, namespace)
      case Err(_) => None
      case Ok(o) => LookupAsWritten(cluster, gvrs[1..], name, namespace, Some(o))
  }

  /** The first successful lookup, as the "found a match" comment intends. */
  function FirstFound(cluster: Cluster, gvrs: seq<GroupVersionResource>, name: string, namespace: string): Option<Object>
    decreases |gvrs|
  {
    if gvrs == [] then None
    else
      match cluster.get(gvrs[0], name, namespace)
      case Ok(o) => Some(o)
      case Err(_) => FirstFound(cluster, gvrs[1..], name, namespace)
  }

  /** Every lookup of the list succeeds. */
  predicate AllFound(cluster: Cluster, gvrs: seq<GroupVersionResource>, name: string, namespace: string) {
    forall i | 0 <= i < |gvrs| :: cluster.get(gvrs[i], name, namespace).Ok?
  }

  /**
   * As written, a resource comes back only when there is at least one mapping and every lookup
   * succeeds, and then it is the last lookup's object.
   */
  lemma {:induction false} LookupAsWrittenNeedsAll(cluster: Cluster, gvrs: seq<GroupVersionResource>, name: string,
                                                   namespace: string, r: Option<Object>)
    requires gvrs != []
    ensures LookupAsWritten(cluster, gvrs, name, namespace, r).Some? <==> AllFound(cluster, gvrs, name, namespace)
    ensures AllFound(cluster, gvrs, name, namespace) ==>
      LookupAsWritten(cluster, gvrs, name, namespace, r) == Some(cluster.get(gvrs[|gvrs| - 1], name, namespace).value)
    decreases |gvrs|
  {
    var rest := gvrs[1..];
    if cluster.get(gvrs[0], name, namespace).Ok? && rest != [] {
      LookupAsWrittenNeedsAll(cluster, rest, name, namespace, Some(cluster.get(gvrs[0], name, namespace).value));
      assert AllFound(cluster, gvrs, name, namespace) <==> AllFound(cluster, rest, name, namespace) by {
        forall i | 0 <= i < |rest| ensures rest[i] == gvrs[i + 1] { }
        if AllFound(cluster, rest, name, namespace) {
          forall i | 0 <= i < |gvrs| ensures cluster.get(gvrs[i], name, namespace).Ok? {
            if i > 0 { assert gvrs[i] == rest[i - 1]; }
          }
        }
      }
    }
  }

  /** The corrected lookup returns the first mapping whose lookup succeeds, and nothing when none does. */
  lemma {:induction false} FirstFoundIsFirst(cluster: Cluster, gvrs: seq<GroupVersionResource>, name: string, namespace: string)
    ensures FirstFound(cluster, gvrs, name, namespace).None? <==>
      forall i | 0 <= i < |gvrs| :: cluster.get(gvrs[i], name, namespace).Err?
    ensures FirstFound(cluster, gvrs, name, namespace).Some? ==>
      exists i | 0 <= i < |gvrs| ::
        && cluster.get(gvrs[i], name, namespace) == Ok(FirstFound(cluster, gvrs, name, namespace).value)
        && forall j | 0 <= j < i :: cluster.get(gvrs[j], name, namespace).Err?
    decreases |gvrs|
  {
    if gvrs != [] {
      var rest := gvrs[1..];
      FirstFoundIsFirst(cluster, rest, name, namespace);
      if cluster.get(gvrs[0], name, namespace).Err? {
        if FirstFound(cluster, rest, name, namespace).Some? {
          var i :| 0 <= i < |rest| && cluster.get(rest[i], name, namespace) == Ok(FirstFound(cluster, rest, name, namespace).value)
            && forall j | 0 <= j < i :: cluster.get(rest[j], name, namespace).Err?;
          assert rest[i] == gvrs[i + 1];
          forall j | 0 <= j < i + 1 ensures cluster.get(gvrs[j], name, namespace).Err? {
            if j > 0 { assert gvrs[j] == rest[j - 1]; }
          }
        } else {
          forall j | 0 <= j < |gvrs| ensures cluster.get(gvrs[j], name, namespace).Err? {
            if j > 0 { assert gvrs[j] == rest[j - 1]; }
          }
        }
      }
    }
  }

  /** The names used in the counterexample below. */
  const ExampleA: GroupVersionResource := GroupVersionResource("extensions", "v1beta1", "ingresses")
  const ExampleB: GroupVersionResource := GroupVersionResource("networking.k8s.io", "v1", "ingresses")
  const ExampleObject: Object := Object(GroupVersionKind("extensions", "v1beta1", "Ingress"), "web", "default", "", "u1", map[], map[])

  /** A cluster that serves the object under the first mapping only. */
  function ExampleCluster(): Cluster {
    Cluster(
      _ => ([], false),
      _ => Ok([]),
      (gvr: GroupVersionResource, n: string, ns: string) => if gvr == ExampleA then Ok(ExampleObject) else Err(Message("not found")),
      Ok([]))
  }

  /**
   * With two mappings where only the first finds the object, the loop as written breaks with the
   * second lookup's nil result and reports the resource missing; the corrected lookup finds it.
   */
  lemma LookupAsWrittenMissesFoundResource()
    ensures LookupAsWritten(ExampleCluster(), [ExampleA, ExampleB], "web", "default", None) == None
    ensures FirstFound(ExampleCluster(), [ExampleA, ExampleB], "web", "default") == Some(ExampleObject)
  {
    assert [ExampleA, ExampleB][1..] == [ExampleB];
    assert ExampleA != ExampleB;
  }

  /** The GVRs a kind maps to, none for an unknown kind. */
  function Mappings(kindToGVR: map<string, seq<GroupVersionResource>>, kind: string): seq<GroupVersionResource> {
    if kind in kindToGVR then kindToGVR[kind] else []
  }

  /** The error GetResourceByKind reports; the GVR list's rendering is not modelled. */
  function NotFoundError(kind: string, name: string, namespace: string): Error {
    Message("could not find resource with kind=[" + kind + "] name=[" + name + "] in namespace=[" + namespace + "]")
  }

  /** What the corrected GetResourceByKind returns. */
  function ResourceByKind(cluster: Cluster, kind: string, name: string, namespace: string,
                          kindToGVR: map<string, seq<GroupVersionResource>>): Result<Object, Error> {
    var r := FirstFound(cluster, Mappings(kindToGVR, kind), name, namespace);
    if r.Some? then Ok(r.value) else Err(NotFoundError(kind, name, namespace))
  }

  class Client {
    const cluster: Cluster
    /** The deadline given to each call to the API server, in nanoseconds. */
    var timeout: int

    /** NewClient once the connection exists: the default timeout. */
    constructor (cluster: Cluster)
      ensures this.cluster == cluster && timeout == DefaultTimeout
    {
      this.cluster := cluster;
      timeout := DefaultTimeout;
    }

    /** SetTimeout: only a positive duration is accepted. */
    method SetTimeout(timeout: int) returns (err: Option<Error>)
      modifies this`timeout
      ensures err.None? <==> timeout > 0
      ensures this.timeout == if timeout > 0 then timeout else old(this.timeout)
    {
      if timeout <= 0 {
        return Some(Message("invalid timeout"));
      }
      this.timeout := timeout;
      return None;
    }

    /**
     * GetViolatedConstraints: list the constraints of every group resource at v1beta1 and keep those
     * with violations, by UID. Each kept entry is its own listed object (one variable per iteration).
     */
    method GetViolatedConstraints(groupResources: seq<GroupResource>) returns (r: Result<map<string, Object>, Error>)
      ensures r == ViolatedConstraints(cluster, groupResources)
    {
      var violated: map<string, Object> := map[];
      ghost var seen: seq<Object> := [];
      for i := 0 to |groupResources|
        invariant ListAll(cluster, groupResources[..i]) == Ok(seen)
        invariant violated == Index(map[], seen)
      {
        assert groupResources[..i + 1][..i] == groupResources[..i];
        var listed := cluster.list(groupResources[i].WithVersion(ConstraintsApiVersion));
        if listed.Err? {
          ListAllStopsAtError(cluster, groupResources, i + 1);
          return Err(listed.error);
        }
        var constraints := listed.value;
        for j := 0 to |constraints|
          invariant violated == Index(Index(map[], seen), constraints[..j])
        {
          assert constraints[..j + 1][..j] == constraints[..j];
          var constraint := constraints[j];
          if HasViolations(constraint) {
            violated := violated[constraint.uid := constraint];
          }
        }
        assert constraints[..|constraints|] == constraints;
        IndexAppend(map[], seen, constraints);
        seen := seen + constraints;
      }
      assert groupResources[..|groupResources|] == groupResources;
      return Ok(violated);
    }

    /** GetResourceByKind as written: the loop breaks at the first failing lookup. */
    method GetResourceByKindAsWritten(kind: string, name: string, namespace: string,
                                      kindToGVR: map<string, seq<GroupVersionResource>>)
      returns (result: Result<Object, Error>)
      ensures var r := LookupAsWritten(cluster, Mappings(kindToGVR, kind), name, namespace, None);
        result == if r.Some? then Ok(r.value) else Err(NotFoundError(kind, name, namespace))
    {
      var possible := Mappings(kindToGVR, kind);
      var r: Option<Object> := None;
      var i := 0;
      while i < |possible|
        invariant 0 <= i <= |possible|
        invariant LookupAsWritten(cluster, possible[i..], name, namespace, r) ==
                  LookupAsWritten(cluster, possible, name, namespace, None)
      {
        assert possible[i..][1..] == possible[i + 1..];
        var got := cluster.get(possible[i], name, namespace);
        if got.Err? {
          r := None;
          break;
        }
        r := Some(got.value);
        i := i + 1;
      }
      if r.None? {
        return Err(NotFoundError(kind, name, namespace));
      }
      return Ok(r.value);
    }

    /** GetResourceByKind as intended: the first mapping whose lookup succeeds. */
    method GetResourceByKind(kind: string, name: string, namespace: string,
                             kindToGVR: map<string, seq<GroupVersionResource>>)
      returns (result: Result<Object, Error>)
      ensures result == ResourceByKind(cluster, kind, name, namespace, kindToGVR)
    {
      var possible := Mappings(kindToGVR, kind);
      var i := 0;
      while i < |possible|
        invariant 0 <= i <= |possible|
        invariant FirstFound(cluster, possible[i..], name, namespace) == FirstFound(cluster, possible, name, namespace)
      {
        assert possible[i..][1..] == possible[i + 1..];
        var got := cluster.get(possible[i], name, namespace);
        if got.Ok? {
          return Ok(got.value);
        }
        i := i + 1;
      }
      return Err(NotFoundError(kind, name, namespace));
    }

    /** GetConstraintTemplate: the cluster-scoped template named after the kind, lower-cased. */
    method GetConstraintTemplate(constraintKind: string) returns (r: Result<Object, Error>)
      ensures r == cluster.get(ConstraintTemplateGVR, TemplateName(constraintKind), "")
    {
      r := cluster.get(ConstraintTemplateGVR, TemplateName(constraintKind), "");
    }
  }

  /** A listing error at position i - 1 ends ListAll with that error, unless an earlier one did. */
  lemma ListAllStopsAtError(cluster: Cluster, groupResources: seq<GroupResource>, n: nat)
    requires 0 < n <= |groupResources|
    requires ListAll(cluster, groupResources[..n - 1]).Ok?
    requires cluster.list(groupResources[n - 1].WithVersion(ConstraintsApiVersion)).Err?
    ensures ListAll(cluster, groupResources) == Err(cluster.list(groupResources[n - 1].WithVersion(ConstraintsApiVersion)).error)
  {
    var prefix := groupResources[..n];
    assert prefix[..n - 1] == groupResources[..n - 1];
    assert prefix[n - 1] == groupResources[n - 1];
    assert ListAll(cluster, prefix).Err?;
    ListAllErrorSticks(cluster, groupResources, n);
  }

  /** Once ListAll of a prefix fails, ListAll of every longer prefix fails with the same error. */
  lemma {:induction false} ListAllErrorSticks(cluster: Cluster, groupResources: seq<GroupResource>, n: nat)
    requires 0 < n <= |groupResources|
    requires ListAll(cluster, groupResources[..n]).Err?
    ensures ListAll(cluster, groupResources) == ListAll(cluster, groupResources[..n])
    decreases |groupResources| - n
  {
    if n < |groupResources| {
      assert groupResources[..n + 1][..n] == groupResources[..n];
      ListAllErrorSticks(cluster, groupResources, n + 1);
    } else {
      assert groupResources[..n] == groupResources;
    }
  }
}
