/**
 * The Security Command Center service as the client sees it. The finding
 * store maps each finding name to its state; every request received is
 * appended to `log`. The replies are fixed when the server is built: they
 * stand for whatever the real service would answer.
 */
module Remote {
  import opened Wrappers
  import opened Errors
  import opened Api

  class Server {
    var store: map<string, State>
    var log: seq<Call>

    /** What ListFindings streams for any request. */
    const findings: Listing<Finding>
    /** What ListSources streams for any request. */
    const sources: Listing<Source>
    /** The error SetFindingState fails with for a finding name, or None when it succeeds. */
    const setStateReply: string -> Option<Error>
    /** The error CreateFinding fails with for a full finding name, or None when it succeeds. */
    const createReply: string -> Option<Error>
    const createSourceReply: Result<Source, Error>
    const policyReply: Result<Policy, Error>
    /** What SetIamPolicy answers for the policy sent: the policy the service stored (its etag, its normal form) or an error. */
    const setPolicyReply: Policy -> Result<Policy, Error>

    constructor (store: map<string, State>, findings: Listing<Finding>, sources: Listing<Source>,
                 setStateReply: string -> Option<Error>, createReply: string -> Option<Error>,
                 createSourceReply: Result<Source, Error>, policyReply: Result<Policy, Error>,
                 setPolicyReply: Policy -> Result<Policy, Error>)
      ensures this.store == store && log == []
      ensures this.findings == findings && this.sources == sources
      ensures this.setStateReply == setStateReply && this.createReply == createReply
      ensures this.createSourceReply == createSourceReply && this.policyReply == policyReply
      ensures this.setPolicyReply == setPolicyReply
    {
      this.store := store;
      this.log := [];
      this.findings := findings;
      this.sources := sources;
      this.setStateReply := setStateReply;
      this.createReply := createReply;
      this.createSourceReply := createSourceReply;
      this.policyReply := policyReply;
      this.setPolicyReply := setPolicyReply;
    }

    /** The effect of one request on the stored finding states. */
    function Apply(s: map<string, State>, call: Call): map<string, State> {
      match call
      case SetFindingState(req) =>
        if setStateReply(req.name).None? then s[req.name := req.state] else s
      case CreateFinding(req) =>
        if createReply(RequestName(req)).None? then s[RequestName(req) := req.finding.state] else s
      case _ => s
    }

    /** The stored finding states after a series of requests. */
    function Replay(s: map<string, State>, calls: seq<Call>): map<string, State>
      decreases |calls|
    {
      if calls == [] then s else Apply(Replay(s, calls[..|calls| - 1]), calls[|calls| - 1])
    }

    method ListFindings(req: ListFindingsRequest) returns (it: Listing<Finding>)
      modifies this`log
      ensures log == old(log) + [Call.ListFindings(req)]
      ensures it == findings
    {
      log := log + [Call.ListFindings(req)];
      it := findings;
    }

    method SetFindingState(req: SetFindingStateRequest) returns (updated: Option<Finding>, err: Option<Error>)
      modifies this
      ensures log == old(log) + [Call.SetFindingState(req)]
      ensures store == Apply(old(store), Call.SetFindingState(req))
      ensures err == setStateReply(req.name)
      ensures updated == if err.None? then Some(ListedFinding(req.name, "", req.state)) else None
    {
      log := log + [Call.SetFindingState(req)];
      err := setStateReply(req.name);
      if err.None? {
        store := store[req.name := req.state];
        updated := Some(ListedFinding(req.name, "", req.state));
      } else {
        updated := None;
      }
    }

    method CreateFinding(req: CreateFindingRequest) returns (err: Option<Error>)
      modifies this
      ensures log == old(log) + [Call.CreateFinding(req)]
      ensures store == Apply(old(store), Call.CreateFinding(req))
      ensures err == createReply(RequestName(req))
    {
      log := log + [Call.CreateFinding(req)];
      err := createReply(RequestName(req));
      if err.None? {
        store := store[RequestName(req) := req.finding.state];
      }
    }

    method ListSources(parent: string, pageSize: int) returns (it: Listing<Source>)
      modifies this`log
      ensures log == old(log) + [Call.ListSources(parent, pageSize)]
      ensures it == sources
    {
      log := log + [Call.ListSources(parent, pageSize)];
      it := sources;
    }

    method CreateSource(parent: string, source: Source) returns (r: Result<Source, Error>)
      modifies this`log
      ensures log == old(log) + [Call.CreateSource(parent, source)]
      ensures r == createSourceReply
    {
      log := log + [Call.CreateSource(parent, source)];
      r := createSourceReply;
    }

    method GetIamPolicy(resource: string, requestedPolicyVersion: int) returns (r: Result<Policy, Error>)
      modifies this`log
      ensures log == old(log) + [Call.GetIamPolicy(resource, requestedPolicyVersion)]
      ensures r == policyReply
    {
      log := log + [Call.GetIamPolicy(resource, requestedPolicyVersion)];
      r := policyReply;
    }

    method SetIamPolicy(resource: string, policy: Policy) returns (r: Result<Policy, Error>)
      modifies this`log
      ensures log == old(log) + [Call.SetIamPolicy(resource, policy)]
      ensures r == setPolicyReply(policy)
    {
      log := log + [Call.SetIamPolicy(resource, policy)];
      r := setPolicyReply(policy);
    }
  }
}
