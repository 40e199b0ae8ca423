/**
 * The Security Command Center v1 and IAM v1 message types the program reads
 * and writes, reduced to the fields it uses, and the remote calls it issues.
 */
module Api {
  import opened Wrappers
  import opened Errors

  /** A time.Time; ZeroTime is the value for which IsZero() holds. */
  datatype Time = ZeroTime | Instant(unixNanos: int)

  /** Finding_State */
  datatype State = StateUnspecified | Active | Inactive

  /** Finding_Severity */
  datatype Severity = SeverityUnspecified | Critical | High | Medium | Low

  datatype Finding = Finding(
    name: string,
    parent: string,
    state: State,
    resourceName: string,
    category: string,
    eventTime: Time,
    externalUri: string,
    severity: Severity,
    sourceProperties: map<string, string>)

  /** A finding of which only the name, parent and state are known (a listed or updated one). */
  function ListedFinding(name: string, parent: string, state: State): Finding {
    Finding(name, parent, state, "", "", ZeroTime, "", SeverityUnspecified, map[])
  }

  datatype CreateFindingRequest = CreateFindingRequest(parent: string, findingId: string, finding: Finding)

  /** The full finding name "<source>/findings/<id>". */
  function FindingName(parent: string, findingId: string): string {
    parent + "/findings/" + findingId
  }

  /** The full name of the finding a create request would create. */
  function RequestName(req: CreateFindingRequest): string {
    FindingName(req.parent, req.findingId)
  }

  datatype ListFindingsRequest = ListFindingsRequest(parent: string, pageSize: int, pageToken: string)

  datatype SetFindingStateRequest = SetFindingStateRequest(name: string, state: State, startTime: Time)

  datatype Source = Source(name: string, displayName: string, description: string)

  datatype Binding = Binding(role: string, members: seq<string>)

  /** An IAM policy; its remaining fields (audit configs) are carried unchanged by every edit. */
  datatype Policy = Policy(version: int, bindings: seq<Binding>, etag: string)

  /** A request as the remote API receives it. */
  datatype Call =
    | ListFindings(listRequest: ListFindingsRequest)
    | SetFindingState(setRequest: SetFindingStateRequest)
    | CreateFinding(createRequest: CreateFindingRequest)
    | ListSources(sourcesParent: string, sourcesPageSize: int)
    | CreateSource(sourceParent: string, source: Source)
    | GetIamPolicy(getResource: string, requestedPolicyVersion: int)
    | SetIamPolicy(setResource: string, policy: Policy)

  /** What an iterator yields: the items, then either the end (None) or an error. */
  datatype Listing<T> = Listing(items: seq<T>, failure: Option<Error>)
}
