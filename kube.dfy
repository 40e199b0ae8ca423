/**
 * The Kubernetes side as the program sees it: unstructured objects (JSON
 * content plus the metadata the program reads), group/version/kind names,
 * the unstructured field accessors, and the cluster's API clients as
 * oracles whose answers are given.
 */
module Kube {
  import opened Wrappers
  import opened Errors

  datatype Json =
    | Null
    | Bool(b: bool)
    | Number(n: int)
    | Str(s: string)
    | List(items: seq<Json>)
    | Dict(fields: map<string, Json>)

  datatype GroupVersionKind = GroupVersionKind(group: string, version: string, kind: string)

  datatype GroupVersionResource = GroupVersionResource(group: string, version: string, resource: string)

  datatype GroupResource = GroupResource(group: string, resource: string) {
    function WithVersion(version: string): GroupVersionResource {
      GroupVersionResource(group, version, resource)
    }
  }

  /** An unstructured.Unstructured: metadata accessors and the remaining content ("spec", "status", ...). */
  datatype Object = Object(
    gvk: GroupVersionKind,
    name: string,
    namespace: string,
    selfLink: string,
    uid: string,
    annotations: map<string, string>,
    content: map<string, Json>)

  /** metav1.APIResource: a resource name ("pods", "pods/status") and its kind. */
  datatype APIResource = APIResource(name: string, kind: string)

  /** restmapper.APIGroupResources: a group and, per served version, its resources. */
  datatype APIGroupResources = APIGroupResources(group: string, versionedResources: map<string, seq<APIResource>>)

  /** The cluster's discovery and dynamic clients, as the answers they give. */
  datatype Cluster = Cluster(
    expand: string -> (seq<GroupResource>, bool),           // category expander: resources of a category, found
    list: GroupVersionResource -> Result<seq<Object>, Error>, // dynamic List
    get: (GroupVersionResource, string, string) -> Result<Object, Error>, // dynamic Get(gvr, name, namespace)
    apiGroupResources: Result<seq<APIGroupResources>, Error>) // restmapper.GetAPIGroupResources

  /** Outcome of walking a field path: absent (or null on the way), found, or a non-map on the way. */
  datatype Lookup = Missing | Found(value: Json) | NotAMap

  /** unstructured.NestedFieldNoCopy */
  function NestedField(fields: map<string, Json>, path: seq<string>): Lookup
    requires path != []
    decreases |path|
  {
    if path[0] !in fields then Missing
    else if |path| == 1 then Found(fields[path[0]])
    else
      match fields[path[0]]
      case Dict(inner) => NestedField(inner, path[1..])
      case Null => Missing
      case _ => NotAMap
  }

  /** The value of unstructured.NestedString: the string at the path, or "". */
  function NestedString(fields: map<string, Json>, path: seq<string>): string
    requires path != []
  {
    match NestedField(fields, path)
    case Found(Str(s)) => s
    case _ => ""
  }

  /** unstructured.NestedSlice, when it reports the slice as existing without error. */
  function NestedSlice(fields: map<string, Json>, path: seq<string>): Option<seq<Json>>
    requires path != []
  {
    match NestedField(fields, path)
    case Found(List(items)) => Some(items)
    case _ => None
  }

  /** unstructured.NestedMap as (map, found, error): Ok(Some(m)) found, Ok(None) not found. */
  function NestedMap(fields: map<string, Json>, path: seq<string>): Result<Option<map<string, Json>>, Error>
    requires path != []
  {
    match NestedField(fields, path)
    case Missing => Ok(None)
    case Found(Dict(m)) => Ok(Some(m))
    case _ => Err(Message("accessor error: expected map[string]interface{}"))
  }
}
