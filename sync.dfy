/**
 * One synchronisation pass: pkg/sync/sync.go. Read the violated constraints
 * from the cluster, build one create request per violating resource, and
 * hand the requests to the Security Command Center client. The clock,
 * SHA-256, JSON encoding and RFC 3339 parsing are the parameter `env`.
 */
module Sync {
  import opened Wrappers
  import opened Errors
  import opened Api
  import opened Kube
  import opened FindingRequests
  import Reconcile
  import Discovery
  import Dynamic
  import SecurityCenter

  /** Config Connector's annotation naming the Google Cloud project of a resource. */
  const ProjectIdAnnotation: string := "cnrm.cloud.google.com/project-id"
  /** The annotation giving the severity of a violation of this resource. */
  const SeverityAnnotation: string := "gatekeeper.epidemicsound.com/severity"

  /** What a pass reads from outside the cluster and the service. */
  datatype Env = Env(
    now: Time,
    hexSha256: string -> string,
    marshal: map<string, Json> -> Result<string, Error>,
    parseRfc3339: string -> Option<Time>)

  /** getSpecAsJSON: the JSON encoding of the object's spec map. */
  function GetSpecAsJson(obj: Object, marshal: map<string, Json> -> Result<string, Error>): (r: Result<string, Error>)
    ensures "spec" !in obj.content ==> r == Err(Message("no spec on object"))
    ensures "spec" in obj.content && obj.content["spec"].Dict? ==> r == marshal(obj.content["spec"].fields)
    ensures "spec" in obj.content && !obj.content["spec"].Dict? ==> r.Err?
  {
    match NestedMap(obj.content, ["spec"])
    case Err(e) => Err(e)
    case Ok(None) => Err(Message("no spec on object"))
    case Ok(Some(spec)) => marshal(spec)
  }

  /** A spec that could not be read is logged and left empty. */
  function SpecOrEmpty(r: Result<string, Error>): string {
    if r.Ok? then r.value else ""
  }

  /** The audit time of a constraint, or the current time when status.auditTimestamp does not parse. */
  function AuditTime(obj: Object, env: Env): Time {
    match env.parseRfc3339(NestedString(obj.content, ["status", "auditTimestamp"]))
    case Some(t) => t
    case None => env.now
  }

  /** getConstraint, given the answer to the template lookup. */
  function ConstraintOf(obj: Object, template: Result<Object, Error>, env: Env): Constraint {
    Constraint(
      obj.name, obj.selfLink, obj.uid, obj.gvk.kind, AuditTime(obj, env),
      SpecOrEmpty(GetSpecAsJson(obj, env.marshal)),
      if template.Ok? then template.value.uid else "",
      if template.Ok? then template.value.selfLink else "",
      if template.Ok? then SpecOrEmpty(GetSpecAsJson(template.value, env.marshal)) else "")
  }

  /**
   * getConstraint never fails: a missing template leaves the template fields empty, a missing or
   * malformed spec leaves the spec empty, and an unparsable audit timestamp becomes the current time.
   */
  lemma ConstraintOfForgiving(obj: Object, template: Result<Object, Error>, env: Env)
    ensures var c := ConstraintOf(obj, template, env);
      && c.name == obj.name && c.uid == obj.uid && c.kind == obj.gvk.kind
      && (template.Err? ==> c.templateUid == "" && c.templateSelfLink == "" && c.templateSpecJson == "")
      && (template.Ok? ==> c.templateUid == template.value.uid)
      && ("spec" !in obj.content ==> c.specJson == "")
      && (env.parseRfc3339(NestedString(obj.content, ["status", "auditTimestamp"])).None? ==> c.auditTime == env.now)
  {
  }

  /** The violations of a constraint: the maps among the items of status.violations, in order. */
  function ViolationDicts(items: seq<Json>): seq<map<string, Json>>
    decreases |items|
  {
    if items == [] then []
    else
      var init := ViolationDicts(items[..|items| - 1]);
      match items[|items| - 1]
      case Dict(v) => init + [v]
      case _ => init
  }

  function Violations(obj: Object): seq<map<string, Json>> {
    match NestedSlice(obj.content, ["status", "violations"])
    case None => []
    case Some(items) => ViolationDicts(items)
  }

  /** A violation is kept exactly when it is a map; anything else in the list is skipped. */
  lemma {:induction false} ViolationDictsMembers(items: seq<Json>, v: map<string, Json>)
    ensures v in ViolationDicts(items) <==> Dict(v) in items
    decreases |items|
  {
    if items != [] {
      var init := items[..|items| - 1];
      ViolationDictsMembers(init, v);
      assert items == init + [items[|items| - 1]];
    }
  }

  /** The value of an annotation, "" when it is absent. */
  function Annotation(o: Object, key: string): string {
    if key in o.annotations then o.annotations[key] else ""
  }

  /** The lookup getResource makes for a violation: by its kind, name and namespace. */
  function LookupResource(cluster: Cluster, kindToGVR: Discovery.KindMap, violation: map<string, Json>): Result<Object, Error> {
    Dynamic.ResourceByKind(cluster, NestedString(violation, ["kind"]), NestedString(violation, ["name"]),
                           NestedString(violation, ["namespace"]), kindToGVR)
  }

  /** getResource, given the answer to the lookup: it fails only when the lookup does. */
  function ResourceOf(violation: map<string, Json>, found: Result<Object, Error>,
                      marshal: map<string, Json> -> Result<string, Error>): (r: Result<Resource, Error>)
    ensures r.Ok? <==> found.Ok?
    ensures found.Err? ==> r == Err(found.error)
    ensures r.Ok? ==> r.value.name == NestedString(violation, ["name"]) && r.value.uid == found.value.uid
  {
    match found
    case Err(e) => Err(e)
    case Ok(o) =>
      Ok(Resource(
        NestedString(violation, ["name"]), NestedString(violation, ["namespace"]), o.gvk, o.selfLink, o.uid,
        Annotation(o, ProjectIdAnnotation), Annotation(o, SeverityAnnotation),
        NestedString(o.content, ["status", "selfLink"]), NestedString(violation, ["message"]),
        SpecOrEmpty(GetSpecAsJson(o, marshal))))
  }

  /** Everything a pass's requests depend on besides the constraints. */
  datatype Setting = Setting(
    host: string,
    source: string,
    clusterName: string,
    cluster: Cluster,
    kindToGVR: Discovery.KindMap,
    env: Env)

  /** The resources of the violations whose lookup succeeds, in order. */
  function Resources(setting: Setting, violations: seq<map<string, Json>>): seq<Resource>
    decreases |violations|
  {
    if violations == [] then []
    else
      var init := Resources(setting, violations[..|violations| - 1]);
      var v := violations[|violations| - 1];
      var r := ResourceOf(v, LookupResource(setting.cluster, setting.kindToGVR, v), setting.env.marshal);
      if r.Ok? then init + [r.value] else init
  }

  /** A resource is kept exactly when it comes from one of the violations whose lookup succeeds. */
  lemma {:induction false} ResourcesMembers(setting: Setting, violations: seq<map<string, Json>>, r: Resource)
    ensures r in Resources(setting, violations) <==>
      exists i | 0 <= i < |violations| ::
        ResourceOf(violations[i], LookupResource(setting.cluster, setting.kindToGVR, violations[i]), setting.env.marshal) == Ok(r)
    decreases |violations|
  {
    if violations != [] {
      var init := violations[..|violations| - 1];
      ResourcesMembers(setting, init, r);
      forall i | 0 <= i < |init| ensures init[i] == violations[i] { }
    }
  }

  /** The template lookup getConstraint makes: the constraint kind's template. */
  function TemplateOf(cluster: Cluster, obj: Object): Result<Object, Error> {
    cluster.get(Dynamic.ConstraintTemplateGVR, Dynamic.TemplateName(obj.gvk.kind), "")
  }

  /** The request for one violating resource of a constraint. */
  function RequestFor(setting: Setting, obj: Object, r: Resource): CreateFindingRequest
    requires IsHexSha256(setting.env.hexSha256)
  {
    BuildRequest(setting.host, setting.source, setting.clusterName, ConstraintOf(obj, TemplateOf(setting.cluster, obj), setting.env),
                 r, setting.env.now, setting.env.hexSha256)
  }

  /** The requests of a constraint: one per violating resource, in order. */
  function ConstraintRequests(setting: Setting, obj: Object): seq<CreateFindingRequest>
    requires IsHexSha256(setting.env.hexSha256)
  {
    var rs := Resources(setting, Violations(obj));
    seq(|rs|, j requires 0 <= j < |rs| => RequestFor(setting, obj, rs[j]))
  }

  /** The requests of the violated constraints, batch by batch, in the order of keys. */
  function Batches(setting: Setting, constraints: map<string, Object>, keys: seq<string>): (batches: seq<seq<CreateFindingRequest>>)
    requires IsHexSha256(setting.env.hexSha256)
    requires forall i | 0 <= i < |keys| :: keys[i] in constraints
    ensures |batches| == |keys|
  {
    seq(|keys|, i requires 0 <= i < |keys| => ConstraintRequests(setting, constraints[keys[i]]))
  }

  /** Recording requests under their finding names, a later one replacing an earlier one. */
  function Insert(m: map<string, CreateFindingRequest>, reqs: seq<CreateFindingRequest>): map<string, CreateFindingRequest>
    decreases |reqs|
  {
    if reqs == [] then m
    else Insert(m, reqs[..|reqs| - 1])[RequestName(reqs[|reqs| - 1]) := reqs[|reqs| - 1]]
  }

  /** Recording batches of requests in turn. */
  function InsertAll(m: map<string, CreateFindingRequest>, batches: seq<seq<CreateFindingRequest>>): map<string, CreateFindingRequest>
    decreases |batches|
  {
    if batches == [] then m
    else Insert(InsertAll(m, batches[..|batches| - 1]), batches[|batches| - 1])
  }

  /** The j-th request of a constraint is built from its j-th violating resource. */
  lemma ConstraintRequestsAt(setting: Setting, obj: Object, c: Constraint, j: nat)
    requires IsHexSha256(setting.env.hexSha256)
    requires c == ConstraintOf(obj, TemplateOf(setting.cluster, obj), setting.env)
    requires j < |Resources(setting, Violations(obj))|
    ensures ConstraintRequests(setting, obj)[j] ==
      BuildRequest(setting.host, setting.source, setting.clusterName, c, Resources(setting, Violations(obj))[j],
                   setting.env.now, setting.env.hexSha256)
  {
  }

  lemma TakeOneMore<T>(s: seq<T>, j: nat)
    requires j < |s|
    ensures s[..j + 1] == s[..j] + [s[j]]
  {
  }

  /** The request map of a pass: the violated constraints visited in the order of keys. */
  function RequestsOver(setting: Setting, constraints: map<string, Object>, keys: seq<string>)
    : map<string, CreateFindingRequest>
    requires IsHexSha256(setting.env.hexSha256)
    requires forall i | 0 <= i < |keys| :: keys[i] in constraints
  {
    InsertAll(map[], Batches(setting, constraints, keys))
  }

  /** Part-way through a range over a map: keys visited once each, the rest still remaining. */
  ghost predicate Visiting(keys: seq<string>, remaining: set<string>, all: set<string>) {
    && remaining <= all
    && (forall i | 0 <= i < |keys| :: keys[i] in all && keys[i] !in remaining)
    && (forall k | k in all :: k in keys || k in remaining)
    && (forall i, j | 0 <= i < j < |keys| :: keys[i] != keys[j])
  }

  /** Visiting a remaining key keeps the range going; with nothing left, every key was visited once. */
  lemma VisitNext(keys: seq<string>, remaining: set<string>, all: set<string>, k: string)
    requires Visiting(keys, remaining, all) && k in remaining
    ensures Visiting(keys + [k], remaining - {k}, all)
  {
  }

  /** Visiting one more constraint records its requests over those of the constraints before it. */
  lemma RequestsOverSnoc(setting: Setting, constraints: map<string, Object>, keys: seq<string>, key: string)
    requires IsHexSha256(setting.env.hexSha256)
    requires forall i | 0 <= i < |keys| :: keys[i] in constraints
    requires key in constraints
    ensures RequestsOver(setting, constraints, keys + [key]) ==
      Insert(RequestsOver(setting, constraints, keys), ConstraintRequests(setting, constraints[key]))
  {
    var before := Batches(setting, constraints, keys);
    var after := Batches(setting, constraints, keys + [key]);
    assert after == before + [ConstraintRequests(setting, constraints[key])];
    assert after[..|after| - 1] == before;
  }

  /** Every request of a pass names the source as parent, asks for an ACTIVE finding and is stored under its own name. */
  predicate WellFormed(source: string, reqs: map<string, CreateFindingRequest>) {
    Reconcile.WellKeyed(reqs) &&
    forall k | k in reqs :: reqs[k].parent == source && reqs[k].finding.state == Active
  }

  /** A batch whose every request names the source as parent and asks for an ACTIVE finding. */
  predicate ForSource(source: string, reqs: seq<CreateFindingRequest>) {
    forall j | 0 <= j < |reqs| :: reqs[j].parent == source && reqs[j].finding.state == Active
  }

  /** Every request built for a pass names the pass's source as parent and asks for an ACTIVE finding. */
  lemma ConstraintRequestsForSource(setting: Setting, obj: Object)
    requires IsHexSha256(setting.env.hexSha256)
    ensures ForSource(setting.source, ConstraintRequests(setting, obj))
  {
  }

  lemma {:induction false} InsertWellFormed(source: string, m: map<string, CreateFindingRequest>, reqs: seq<CreateFindingRequest>)
    requires WellFormed(source, m) && ForSource(source, reqs)
    ensures WellFormed(source, Insert(m, reqs))
    decreases |reqs|
  {
    if reqs != [] {
      InsertWellFormed(source, m, reqs[..|reqs| - 1]);
    }
  }

  lemma {:induction false} InsertAllWellFormed(source: string, m: map<string, CreateFindingRequest>,
                                               batches: seq<seq<CreateFindingRequest>>)
    requires WellFormed(source, m)
    requires forall i | 0 <= i < |batches| :: ForSource(source, batches[i])
    ensures WellFormed(source, InsertAll(m, batches))
    decreases |batches|
  {
    if batches != [] {
      InsertAllWellFormed(source, m, batches[..|batches| - 1]);
      InsertWellFormed(source, InsertAll(m, batches[..|batches| - 1]), batches[|batches| - 1]);
    }
  }

  /**
   * The request map of a pass meets what the synchronisation of finding states relies on: keyed by
   * finding name (so the listing's names can be looked up), every finding wanted ACTIVE.
   */
  lemma RequestsWellFormed(setting: Setting, constraints: map<string, Object>, keys: seq<string>)
    requires IsHexSha256(setting.env.hexSha256)
    requires forall i | 0 <= i < |keys| :: keys[i] in constraints
    ensures WellFormed(setting.source, RequestsOver(setting, constraints, keys))
  {
    var batches := Batches(setting, constraints, keys);
    forall i | 0 <= i < |batches| ensures ForSource(setting.source, batches[i]) {
      ConstraintRequestsForSource(setting, constraints[keys[i]]);
    }
    InsertAllWellFormed(setting.source, map[], batches);
  }

  /** A name is recorded exactly when it was recorded before or names one of the requests. */
  lemma {:induction false} InsertMembers(m: map<string, CreateFindingRequest>, reqs: seq<CreateFindingRequest>, k: string)
    ensures k in Insert(m, reqs) <==> k in m || exists j | 0 <= j < |reqs| :: RequestName(reqs[j]) == k
    decreases |reqs|
  {
    if reqs != [] {
      var init := reqs[..|reqs| - 1];
      InsertMembers(m, init, k);
      forall j | 0 <= j < |init| ensures init[j] == reqs[j] { }
    }
  }

  /** What is recorded stays recorded, and every request of every batch gets recorded under its name. */
  lemma {:induction false} InsertAllComplete(m: map<string, CreateFindingRequest>, batches: seq<seq<CreateFindingRequest>>,
                                             i: nat, j: nat)
    requires i < |batches| && j < |batches[i]|
    ensures RequestName(batches[i][j]) in InsertAll(m, batches)
    decreases |batches|
  {
    var n := |batches| - 1;
    var k := RequestName(batches[i][j]);
    InsertMembers(InsertAll(m, batches[..n]), batches[n], k);
    if i < n {
      assert batches[..n][i] == batches[i];
      InsertAllComplete(m, batches[..n], i, j);
    }
  }

  /** Every violating resource whose lookup succeeds has a request under the finding name of its request. */
  lemma RequestsComplete(setting: Setting, constraints: map<string, Object>, keys: seq<string>, i: nat, r: Resource)
    requires IsHexSha256(setting.env.hexSha256)
    requires forall i | 0 <= i < |keys| :: keys[i] in constraints
    requires i < |keys| && r in Resources(setting, Violations(constraints[keys[i]]))
    ensures RequestName(RequestFor(setting, constraints[keys[i]], r)) in RequestsOver(setting, constraints, keys)
  {
    var rs := Resources(setting, Violations(constraints[keys[i]]));
    var j :| 0 <= j < |rs| && rs[j] == r;
    assert Batches(setting, constraints, keys)[i][j] == RequestFor(setting, constraints[keys[i]], r);
    InsertAllComplete(map[], Batches(setting, constraints, keys), i, j);
  }

  class Client {
    const dryRun: bool
    const scc: SecurityCenter.Client
    const discovery: Discovery.Client
    const dynamic: Dynamic.Client
    /** The API server's address, prefixed to every self link. */
    const host: string
    /** The full name of the Security Command Center source findings go to. */
    const source: string
    const clusterName: string

    /** NewClient once the three clients exist. */
    constructor (dryRun: bool, scc: SecurityCenter.Client, discovery: Discovery.Client, dynamic: Dynamic.Client,
                 host: string, source: string, clusterName: string)
      ensures this.dryRun == dryRun && this.scc == scc && this.discovery == discovery && this.dynamic == dynamic
      ensures this.host == host && this.source == source && this.clusterName == clusterName
    {
      this.dryRun := dryRun;
      this.scc := scc;
      this.discovery := discovery;
      this.dynamic := dynamic;
      this.host := host;
      this.source := source;
      this.clusterName := clusterName;
    }

    function SettingFor(kindToGVR: Discovery.KindMap, env: Env): Setting {
      Setting(host, source, clusterName, dynamic.cluster, kindToGVR, env)
    }

    /** getConstraint: the constraint's fields, its template's fields when the template is found. */
    method GetConstraint(obj: Object, env: Env) returns (c: Constraint)
      ensures c == ConstraintOf(obj, TemplateOf(dynamic.cluster, obj), env)
    {
      var specJson := SpecOrEmpty(GetSpecAsJson(obj, env.marshal));
      var templateUid, templateSelfLink, templateSpecJson := "", "", "";
      var template := dynamic.GetConstraintTemplate(obj.gvk.kind);
      if template.Ok? {
        templateUid := template.value.uid;
        templateSelfLink := template.value.selfLink;
        templateSpecJson := SpecOrEmpty(GetSpecAsJson(template.value, env.marshal));
      }
      var auditTime := AuditTime(obj, env);
      c := Constraint(obj.name, obj.selfLink, obj.uid, obj.gvk.kind, auditTime, specJson,
                      templateUid, templateSelfLink, templateSpecJson);
    }

    /** getResource: look the violation's resource up by kind and read what the finding needs. */
    method GetResource(violation: map<string, Json>, kindToGVR: Discovery.KindMap, env: Env)
      returns (r: Result<Resource, Error>)
      ensures r == ResourceOf(violation, LookupResource(dynamic.cluster, kindToGVR, violation), env.marshal)
    {
      var name := NestedString(violation, ["name"]);
      var namespace := NestedString(violation, ["namespace"]);
      var kind := NestedString(violation, ["kind"]);
      var found := dynamic.GetResourceByKind(kind, name, namespace, kindToGVR);
      if found.Err? {
        return Err(found.error);
      }
      var o := found.value;
      var statusSelfLink := NestedString(o.content, ["status", "selfLink"]);
      var projectId := Annotation(o, ProjectIdAnnotation);
      var severity := Annotation(o, SeverityAnnotation);
      var message := NestedString(violation, ["message"]);
      var specJson := SpecOrEmpty(GetSpecAsJson(o, env.marshal));
      return Ok(Resource(name, namespace, o.gvk, o.selfLink, o.uid, projectId, severity, statusSelfLink, message, specJson));
    }

    /** getViolatingResourcesForConstraint: the resources of the violations, skipping those not found. */
    method GetViolatingResources(obj: Object, kindToGVR: Discovery.KindMap, env: Env) returns (resources: seq<Resource>)
      ensures resources == Resources(SettingFor(kindToGVR, env), Violations(obj))
    {
      var violations := GetViolationsForConstraint(obj);
      resources := [];
      for i := 0 to |violations|
        invariant resources == Resources(SettingFor(kindToGVR, env), violations[..i])
      {
        assert violations[..i + 1][..i] == violations[..i];
        var resource := GetResource(violations[i], kindToGVR, env);
        if resource.Ok? {
          resources := resources + [resource.value];
        }
      }
      assert violations[..|violations|] == violations;
    }

    /** The body of the loop over the violated constraints: add the requests of one constraint. */
    method AddConstraintRequests(requests: map<string, CreateFindingRequest>, obj: Object,
                                 kindToGVR: Discovery.KindMap, env: Env)
      returns (result: map<string, CreateFindingRequest>)
      requires IsHexSha256(env.hexSha256)
      ensures result == Insert(requests, ConstraintRequests(SettingFor(kindToGVR, env), obj))
    {
      var constraint := GetConstraint(obj, env);
      var resources := GetViolatingResources(obj, kindToGVR, env);
      ghost var setting := SettingFor(kindToGVR, env);
      ghost var batch := ConstraintRequests(setting, obj);
      assert Builds(constraint, resources, env, batch) by {
        forall j | 0 <= j < |resources|
          ensures batch[j] == BuildRequest(host, source, clusterName, constraint, resources[j], env.now, env.hexSha256)
        {
          ConstraintRequestsAt(setting, obj, constraint, j);
        }
      }
      result := InsertBatch(requests, constraint, resources, env, batch);
    }

    /** The requests of the resources of one constraint, in order. */
    ghost predicate Builds(constraint: Constraint, resources: seq<Resource>, env: Env, batch: seq<CreateFindingRequest>)
      requires IsHexSha256(env.hexSha256)
    {
      |batch| == |resources| &&
      forall j | 0 <= j < |resources| ::
        batch[j] == BuildRequest(host, source, clusterName, constraint, resources[j], env.now, env.hexSha256)
    }

    /** The inner loop of Sync: record the request of each resource under its finding name. */
    method InsertBatch(requests: map<string, CreateFindingRequest>, constraint: Constraint, resources: seq<Resource>,
                       env: Env, ghost batch: seq<CreateFindingRequest>)
      returns (result: map<string, CreateFindingRequest>)
      requires IsHexSha256(env.hexSha256)
      requires Builds(constraint, resources, env, batch)
      ensures result == Insert(requests, batch)
    {
      result := requests;
      for j := 0 to |resources|
        invariant result == Insert(requests, batch[..j])
      {
        var req := BuildRequest(host, source, clusterName, constraint, resources[j], env.now, env.hexSha256);
        assert batch[..j + 1] == batch[..j] + [req] by {
          TakeOneMore(batch, j);
        }
        result := result[FindingName(req.parent, req.findingId) := req];
      }
      assert batch[..|resources|] == batch;
    }

    /** The finding requests of a pass: the violated constraints visited in map order. */
    method BuildFindingRequests(violated: map<string, Object>, kindToGVR: Discovery.KindMap, env: Env)
      returns (requests: map<string, CreateFindingRequest>, ghost keys: seq<string>)
      requires IsHexSha256(env.hexSha256)
      ensures Discovery.Enumerates(keys, violated.Keys)
      ensures forall i | 0 <= i < |keys| :: keys[i] in violated
      ensures requests == RequestsOver(SettingFor(kindToGVR, env), violated, keys)
      ensures WellFormed(source, requests)
      ensures forall uid, r | uid in violated && r in Resources(SettingFor(kindToGVR, env), Violations(violated[uid])) ::
        RequestName(RequestFor(SettingFor(kindToGVR, env), violated[uid], r)) in requests
    {
      requests := map[];
      keys := [];
      ghost var setting := SettingFor(kindToGVR, env);
      var remaining := violated.Keys;
      while remaining != {}
        invariant Visiting(keys, remaining, violated.Keys)
        invariant requests == RequestsOver(setting, violated, keys)
        decreases |remaining|
      {
        var uid :| uid in remaining;
        requests := AddConstraintRequests(requests, violated[uid], kindToGVR, env);
        RequestsOverSnoc(setting, violated, keys, uid);
        VisitNext(keys, remaining, violated.Keys, uid);
        keys := keys + [uid];
        remaining := remaining - {uid};
      }
      RequestsWellFormed(setting, violated, keys);
      forall uid, r | uid in violated && r in Resources(setting, Violations(violated[uid]))
        ensures RequestName(RequestFor(setting, violated[uid], r)) in requests
      {
        assert uid in keys;
        var i :| 0 <= i < |keys| && keys[i] == uid;
        RequestsComplete(setting, violated, keys, i, r);
      }
    }

    /**
     * Sync: discovery and listing errors end the pass before any request is built; in dry-run the
     * requests are only shown; otherwise they are handed to SyncFindings and its error is wrapped.
     */
    method Sync(env: Env)
      returns (err: Option<Error>, ghost requests: map<string, CreateFindingRequest>, ghost keys: seq<string>,
               ghost kindOrders: seq<seq<string>>, ghost syncErr: Option<Error>, ghost order: seq<string>,
               ghost unsynced: seq<CreateFindingRequest>)
      requires IsHexSha256(env.hexSha256)
      modifies scc.server
      ensures var violated := Dynamic.ViolatedConstraints(dynamic.cluster, discovery.cluster.expand(Discovery.ConstraintCategory).0);
        var groups := discovery.cluster.apiGroupResources;
        && (violated.Err? ==> err == Some(violated.error))
        && (violated.Ok? && groups.Err? ==> err == Some(groups.error))
        && (violated.Err? || groups.Err? || dryRun ==>
              scc.server.log == old(scc.server.log) && scc.server.store == old(scc.server.store))
        && (violated.Ok? && groups.Ok? ==>
              && Discovery.VersionOrders(groups.value, kindOrders)
              && Discovery.Enumerates(keys, violated.value.Keys)
              && (forall i | 0 <= i < |keys| :: keys[i] in violated.value)
              && requests == RequestsOver(SettingFor(Discovery.AddGroups(map[], groups.value, kindOrders), env),
                                          violated.value, keys)
              && (dryRun ==> err.None?)
              && (!dryRun ==>
                    && scc.SyncEffect(old(scc.server.log), old(scc.server.store), source, requests, env.now,
                                      syncErr, order, unsynced)
                    && err == if syncErr.None? then None else Some(Wrapped("could not sync findings", syncErr.value))))
    {
      requests, keys, kindOrders, syncErr, order, unsynced := map[], [], [], None, [], [];
      var groupResources, discoveryErr := discovery.GetConstraintGroupResources();
      if discoveryErr.Some? {
        return discoveryErr, requests, keys, kindOrders, syncErr, order, unsynced;
      }
      var violated := dynamic.GetViolatedConstraints(groupResources);
      if violated.Err? {
        return Some(violated.error), requests, keys, kindOrders, syncErr, order, unsynced;
      }
      var kindToGVR;
      kindToGVR, kindOrders := discovery.CreateKindToGVRMap();
      if kindToGVR.Err? {
        return Some(kindToGVR.error), requests, keys, kindOrders, syncErr, order, unsynced;
      }
      var findingRequests;
      findingRequests, keys := BuildFindingRequests(violated.value, kindToGVR.value, env);
      requests := findingRequests;
      if dryRun {
        return None, requests, keys, kindOrders, syncErr, order, unsynced;
      }
      var e;
      e, order, unsynced := scc.SyncFindings(source, findingRequests, env.now);
      syncErr := e;
      if e.Some? {
        return Some(Wrapped("could not sync findings", e.value)), requests, keys, kindOrders, syncErr, order, unsynced;
      }
      return None, requests, keys, kindOrders, syncErr, order, unsynced;
    }
  }

  /** The violations of a constraint: getViolationsForConstraint keeps the map entries of status.violations. */
  method GetViolationsForConstraint(obj: Object) returns (violations: seq<map<string, Json>>)
    ensures violations == Violations(obj)
  {
    violations := [];
    var raw := NestedSlice(obj.content, ["status", "violations"]);
    if raw.None? {
      return;
    }
    var items := raw.value;
    for i := 0 to |items|
      invariant violations == ViolationDicts(items[..i])
    {
      assert items[..i + 1][..i] == items[..i];
      if items[i].Dict? {
        violations := violations + [items[i].fields];
      }
    }
    assert items[..|items|] == items;
  }
}
