/**
 * The discovery client wrapper: pkg/discovery/discovery.go. It finds the
 * constraint resource types and maps each kind to the group/version/resource
 * triples that serve it. The cluster's discovery answers are the oracle
 * `cluster`.
 */
module Discovery {
  import opened Wrappers
  import opened Errors
  import opened Text
  import opened Kube

  /** defaultTimeout: 60 seconds, in nanoseconds. */
  const DefaultTimeout: int := 60_000_000_000

  /** The category Gatekeeper gives every constraint resource type. */
  const ConstraintCategory: string := "constraint"

  type KindMap = map<string, seq<GroupVersionResource>>

  /** The GVRs recorded for a kind; an absent kind reads as an empty (nil) slice. */
  function Get(m: KindMap, kind: string): seq<GroupVersionResource> {
    if kind in m then m[kind] else []
  }

  /** A subresource such as pods/status has a slash in its name. */
  predicate IsSubresource(r: APIResource) {
    Contains(r.name, "/")
  }

  /** Appending one served version's resources to the kind map, subresources skipped, in order. */
  function AddResources(m: KindMap, group: string, version: string, rs: seq<APIResource>): KindMap
    decreases |rs|
  {
    if rs == [] then m
    else
      var m' := AddResources(m, group, version, rs[..|rs| - 1]);
      var r := rs[|rs| - 1];
      if IsSubresource(r) then m'
      else m'[r.kind := Get(m', r.kind) + [GroupVersionResource(group, version, r.name)]]
  }

  /** The resources a group serves at a version, none at a version it does not serve. */
  function Served(g: APIGroupResources, version: string): seq<APIResource> {
    if version in g.versionedResources then g.versionedResources[version] else []
  }

  /** Appending a group's versions, visited in the given order. */
  function AddVersions(m: KindMap, g: APIGroupResources, order: seq<string>): KindMap
    decreases |order|
  {
    if order == [] then m
    else
      var v := order[|order| - 1];
      AddResources(AddVersions(m, g, order[..|order| - 1]), g.group, v, Served(g, v))
  }

  /** Appending every group in turn, each with its own version order. */
  function AddGroups(m: KindMap, groups: seq<APIGroupResources>, orders: seq<seq<string>>): KindMap
    requires |orders| == |groups|
    decreases |groups|
  {
    if groups == [] then m
    else
      var n := |groups| - 1;
      AddVersions(AddGroups(m, groups[..n], orders[..n]), groups[n], orders[n])
  }

  /** order visits every version of the map once, as a range over a Go map does, in some order. */
  ghost predicate Enumerates(order: seq<string>, keys: set<string>) {
    && (forall i, j | 0 <= i < j < |order| :: order[i] != order[j])
    && (forall v | v in order :: v in keys)
    && (forall v | v in keys :: v in order)
  }

  /** Some non-subresource entry of rs has the kind and the resource name. */
  predicate ResourcesServe(rs: seq<APIResource>, kind: string, name: string) {
    exists j | 0 <= j < |rs| :: rs[j].kind == kind && rs[j].name == name && !IsSubresource(rs[j])
  }

  /** The group serves the GVR, as a resource (not a subresource) of the kind. */
  predicate ServedBy(g: APIGroupResources, kind: string, gvr: GroupVersionResource) {
    gvr.group == g.group && gvr.version in g.versionedResources &&
    ResourcesServe(g.versionedResources[gvr.version], kind, gvr.resource)
  }

  /** The entries one served version contributes to a kind: its non-subresources of that kind, in order. */
  function KindEntries(group: string, version: string, rs: seq<APIResource>, kind: string): seq<GroupVersionResource>
    decreases |rs|
  {
    if rs == [] then []
    else
      var r := rs[|rs| - 1];
      KindEntries(group, version, rs[..|rs| - 1], kind) +
        (if !IsSubresource(r) && r.kind == kind then [GroupVersionResource(group, version, r.name)] else [])
  }

  /** A version's resources are appended after what the kind already had: nothing is merged or dropped. */
  lemma {:induction false} AddResourcesAppends(m: KindMap, group: string, version: string, rs: seq<APIResource>,
                                               kind: string)
    ensures Get(AddResources(m, group, version, rs), kind) == Get(m, kind) + KindEntries(group, version, rs, kind)
    decreases |rs|
  {
    if rs != [] {
      var init := rs[..|rs| - 1];
      AddResourcesAppends(m, group, version, init, kind);
      var r := rs[|rs| - 1];
      if !IsSubresource(r) && r.kind == kind {
        assert Get(m, kind) + KindEntries(group, version, init, kind) + [GroupVersionResource(group, version, r.name)]
          == Get(m, kind) + (KindEntries(group, version, init, kind) + [GroupVersionResource(group, version, r.name)]);
      } else {
        assert KindEntries(group, version, rs, kind) == KindEntries(group, version, init, kind) + [];
      }
    }
  }

  /** The same resource listed twice is recorded twice. */
  lemma DuplicatesKept(group: string, version: string, r: APIResource)
    requires !IsSubresource(r)
    ensures Get(AddResources(map[], group, version, [r, r]), r.kind) ==
      [GroupVersionResource(group, version, r.name), GroupVersionResource(group, version, r.name)]
  {
    var gvr := GroupVersionResource(group, version, r.name);
    AddResourcesAppends(map[], group, version, [r, r], r.kind);
    assert [r, r][..1] == [r] && [r][..0] == [];
    assert KindEntries(group, version, [r], r.kind) == [gvr];
    assert KindEntries(group, version, [r, r], r.kind) == [gvr, gvr];
  }

  lemma {:induction false} AddResourcesMembers(m: KindMap, group: string, version: string, rs: seq<APIResource>,
                                               kind: string, gvr: GroupVersionResource)
    ensures gvr in Get(AddResources(m, group, version, rs), kind) <==>
      gvr in Get(m, kind) ||
      (gvr.group == group && gvr.version == version && ResourcesServe(rs, kind, gvr.resource))
    decreases |rs|
  {
    if rs != [] {
      var init := rs[..|rs| - 1];
      AddResourcesMembers(m, group, version, init, kind, gvr);
      assert ResourcesServe(rs, kind, gvr.resource) <==>
        ResourcesServe(init, kind, gvr.resource) ||
        (rs[|rs| - 1].kind == kind && rs[|rs| - 1].name == gvr.resource && !IsSubresource(rs[|rs| - 1])) by {
        if ResourcesServe(rs, kind, gvr.resource) {
          var j :| 0 <= j < |rs| && rs[j].kind == kind && rs[j].name == gvr.resource && !IsSubresource(rs[j]);
          if j < |init| { assert init[j] == rs[j]; }
        }
        if ResourcesServe(init, kind, gvr.resource) {
          var j :| 0 <= j < |init| && init[j].kind == kind && init[j].name == gvr.resource && !IsSubresource(init[j]);
          assert rs[j] == init[j];
        }
      }
    }
  }

  lemma {:induction false} AddVersionsMembers(m: KindMap, g: APIGroupResources, order: seq<string>,
                                              kind: string, gvr: GroupVersionResource)
    ensures gvr in Get(AddVersions(m, g, order), kind) <==>
      gvr in Get(m, kind) || (gvr.version in order && ServedBy(g, kind, gvr))
    decreases |order|
  {
    if order != [] {
      var init := order[..|order| - 1];
      var v := order[|order| - 1];
      AddVersionsMembers(m, g, init, kind, gvr);
      AddResourcesMembers(AddVersions(m, g, init), g.group, v, Served(g, v), kind, gvr);
      assert gvr.version in order <==> gvr.version in init || gvr.version == v;
    }
  }

  lemma {:induction false} AddGroupsMembers(m: KindMap, groups: seq<APIGroupResources>, orders: seq<seq<string>>,
                                            kind: string, gvr: GroupVersionResource)
    requires |orders| == |groups|
    ensures gvr in Get(AddGroups(m, groups, orders), kind) <==>
      gvr in Get(m, kind) ||
      exists i | 0 <= i < |groups| :: gvr.version in orders[i] && ServedBy(groups[i], kind, gvr)
    decreases |groups|
  {
    if groups != [] {
      var n := |groups| - 1;
      AddGroupsMembers(m, groups[..n], orders[..n], kind, gvr);
      AddVersionsMembers(AddGroups(m, groups[..n], orders[..n]), groups[n], orders[n], kind, gvr);
      if exists i | 0 <= i < |groups| :: gvr.version in orders[i] && ServedBy(groups[i], kind, gvr) {
        var i :| 0 <= i < |groups| && gvr.version in orders[i] && ServedBy(groups[i], kind, gvr);
        if i < n { assert groups[..n][i] == groups[i] && orders[..n][i] == orders[i]; }
      }
      if exists i | 0 <= i < n :: gvr.version in orders[..n][i] && ServedBy(groups[..n][i], kind, gvr) {
        var i :| 0 <= i < n && gvr.version in orders[..n][i] && ServedBy(groups[..n][i], kind, gvr);
        assert groups[..n][i] == groups[i] && orders[..n][i] == orders[i];
      }
    }
  }

  /** The version orders a run of CreateKindToGVRMap may take: each visits its group's versions once. */
  ghost predicate VersionOrders(groups: seq<APIGroupResources>, orders: seq<seq<string>>) {
    |orders| == |groups| &&
    forall i | 0 <= i < |groups| :: Enumerates(orders[i], groups[i].versionedResources.Keys)
  }

  /**
   * Whatever order the versions are visited in, the map lists under a kind exactly the GVRs some
   * group serves as a resource of that kind; subresources are never mapped.
   */
  lemma KindMapServes(groups: seq<APIGroupResources>, orders: seq<seq<string>>, kind: string, gvr: GroupVersionResource)
    requires VersionOrders(groups, orders)
    ensures gvr in Get(AddGroups(map[], groups, orders), kind) <==>
      exists i | 0 <= i < |groups| :: ServedBy(groups[i], kind, gvr)
  {
    AddGroupsMembers(map[], groups, orders, kind, gvr);
    if exists i | 0 <= i < |groups| :: ServedBy(groups[i], kind, gvr) {
      var i :| 0 <= i < |groups| && ServedBy(groups[i], kind, gvr);
      assert Enumerates(orders[i], groups[i].versionedResources.Keys);
      assert gvr.version in orders[i];
    }
  }

  class Client {
    const cluster: Cluster
    /** The deadline given to each discovery call, in nanoseconds. */
    var timeout: int

    /** NewClient once the connection exists: the default timeout. */
    constructor (cluster: Cluster)
      ensures this.cluster == cluster && timeout == DefaultTimeout
    {
      this.cluster := cluster;
      timeout := DefaultTimeout;
    }

    /** SetTimeout: a negative duration is rejected; zero is accepted. */
    method SetTimeout(timeout: int) returns (err: Option<Error>)
      modifies this`timeout
      ensures err.None? <==> timeout >= 0
      ensures this.timeout == if timeout >= 0 then timeout else old(this.timeout)
    {
      if timeout < 0 {
        return Some(Message("Invalid timeout"));
      }
      this.timeout := timeout;
      return None;
    }

    /** GetConstraintGroupResources: the resources of the constraint category; an unknown category is not an error. */
    method GetConstraintGroupResources() returns (groupResources: seq<GroupResource>, err: Option<Error>)
      ensures err.None?
      ensures groupResources == cluster.expand(ConstraintCategory).0
    {
      var expanded := cluster.expand(ConstraintCategory);
      groupResources := expanded.0;
      err := None;
    }

    /**
     * CreateKindToGVRMap: a discovery error is returned as is; otherwise every served resource is
     * appended under its kind, group by group, the versions of a group in map order.
     */
    method CreateKindToGVRMap() returns (r: Result<KindMap, Error>, ghost orders: seq<seq<string>>)
      ensures cluster.apiGroupResources.Err? ==> r == Err(cluster.apiGroupResources.error)
      ensures cluster.apiGroupResources.Ok? ==>
        && VersionOrders(cluster.apiGroupResources.value, orders)
        && r == Ok(AddGroups(map[], cluster.apiGroupResources.value, orders))
    {
      orders := [];
      if cluster.apiGroupResources.Err? {
        return Err(cluster.apiGroupResources.error), orders;
      }
      var groups := cluster.apiGroupResources.value;
      var kindToGVR: KindMap := map[];
      for i := 0 to |groups|
        invariant VersionOrders(groups[..i], orders)
        invariant kindToGVR == AddGroups(map[], groups[..i], orders)
      {
        ghost var order;
        kindToGVR, order := AddGroup(kindToGVR, groups[i]);
        assert groups[..i + 1][..i] == groups[..i];
        orders := orders + [order];
        assert orders[..i] == orders[..i + 1][..i];
      }
      assert groups[..|groups|] == groups;
      return Ok(kindToGVR), orders;
    }
  }

  /** One group of CreateKindToGVRMap's outer loop: its versions in map order, each version's resources in order. */
  method AddGroup(start: KindMap, g: APIGroupResources) returns (kindToGVR: KindMap, ghost order: seq<string>)
    ensures Enumerates(order, g.versionedResources.Keys)
    ensures kindToGVR == AddVersions(start, g, order)
    ensures forall kind, gvr :: gvr in Get(kindToGVR, kind) <==> gvr in Get(start, kind) || ServedBy(g, kind, gvr)
  {
    kindToGVR := start;
    order := [];
    var remaining := g.versionedResources.Keys;
    while remaining != {}
      invariant remaining <= g.versionedResources.Keys
      invariant forall v | v in order :: v in g.versionedResources.Keys && v !in remaining
      invariant forall v | v in g.versionedResources.Keys :: v in order || v in remaining
      invariant forall i, j | 0 <= i < j < |order| :: order[i] != order[j]
      invariant kindToGVR == AddVersions(start, g, order)
      decreases |remaining|
    {
      var version :| version in remaining;
      var resources := g.versionedResources[version];
      ghost var before := kindToGVR;
      for j := 0 to |resources|
        invariant kindToGVR == AddResources(before, g.group, version, resources[..j])
      {
        assert resources[..j + 1][..j] == resources[..j];
        var apiResource := resources[j];
        if !Contains(apiResource.name, "/") {
          var gvr := GroupVersionResource(g.group, version, apiResource.name);
          kindToGVR := kindToGVR[apiResource.kind := Get(kindToGVR, apiResource.kind) + [gvr]];
        }
      }
      assert resources[..|resources|] == resources;
      order := order + [version];
      remaining := remaining - {version};
    }
    forall kind, gvr ensures gvr in Get(kindToGVR, kind) <==> gvr in Get(start, kind) || ServedBy(g, kind, gvr) {
      AddVersionsMembers(start, g, order, kind, gvr);
    }
  }
}
