/**
 * The Security Command Center client: pkg/securitycenter. The client keeps
 * its timeout and page size as mutable fields and talks to a Remote.Server;
 * each method is proved to send the requests and return the results the
 * functions of module Reconcile describe.
 */
module SecurityCenter {
  import opened Wrappers
  import opened Errors
  import opened Api
  import opened Remote
  import opened Text
  import opened Reconcile

  /** defaultTimeout: 60 seconds, in nanoseconds. */
  const DefaultTimeout: int := 60_000_000_000
  const DefaultPageSize: int := 1000
  const MaxPageSize: int := 1000
  /** The IAM policy version GetIamPolicy asks for (conditional bindings need version 3). */
  const RequestedPolicyVersion: int := 3

  /** The parent name of an organisation's sources. */
  function OrganizationName(organizationId: string): string {
    "organizations/" + organizationId
  }

  /**
   * What searching the listed sources by display name returns: the name of the first source whose
   * display name equals the one asked for without regard to case, "" when none does, or the
   * listing's error, wrapped, when it fails before a match.
   */
  function FindSource(items: seq<Source>, failure: Option<Error>, displayName: string): Result<string, Error>
    decreases |items|
  {
    if items == [] then
      if failure.Some? then Err(Wrapped("it.Next error when finding source by display name", failure.value))
      else Ok("")
    else if EqualFold(displayName, items[0].displayName) then Ok(items[0].name)
    else FindSource(items[1..], failure, displayName)
  }

  /** FindSource returns the name of the first source whose display name matches. */
  lemma {:induction false} FindSourceFirstMatch(items: seq<Source>, failure: Option<Error>, displayName: string, i: nat)
    requires i < |items| && EqualFold(displayName, items[i].displayName)
    requires forall j | 0 <= j < i :: !EqualFold(displayName, items[j].displayName)
    ensures FindSource(items, failure, displayName) == Ok(items[i].name)
    decreases i
  {
    if i > 0 {
      assert !EqualFold(displayName, items[0].displayName);
      forall j | 0 <= j < i - 1 ensures !EqualFold(displayName, items[1..][j].displayName) {
        assert items[1..][j] == items[j + 1];
      }
      FindSourceFirstMatch(items[1..], failure, displayName, i - 1);
    }
  }

  /** With no matching display name, FindSource returns "" or the listing's error. */
  lemma {:induction false} FindSourceNoMatch(items: seq<Source>, failure: Option<Error>, displayName: string)
    requires forall i | 0 <= i < |items| :: !EqualFold(displayName, items[i].displayName)
    ensures FindSource(items, failure, displayName) ==
      if failure.Some? then Err(Wrapped("it.Next error when finding source by display name", failure.value)) else Ok("")
    decreases |items|
  {
    if items != [] {
      assert !EqualFold(displayName, items[0].displayName);
      forall j | 0 <= j < |items| - 1 ensures !EqualFold(displayName, items[1..][j].displayName) {
        assert items[1..][j] == items[j + 1];
      }
      FindSourceNoMatch(items[1..], failure, displayName);
    }
  }

  class Client {
    const server: Server
    const dryRun: bool
    /** The deadline given to each remote call, in nanoseconds. */
    var timeout: int
    var pageSize: int

    /** What SetTimeout and SetPageSize guard. */
    predicate Valid()
      reads this
    {
      timeout > 0 && 1 <= pageSize <= MaxPageSize
    }

    /** NewClient once the connection exists: the default timeout and page size. */
    constructor (server: Server, dryRun: bool)
      ensures this.server == server && this.dryRun == dryRun
      ensures timeout == DefaultTimeout && pageSize == DefaultPageSize
      ensures Valid()
    {
      this.server := server;
      this.dryRun := dryRun;
      timeout := DefaultTimeout;
      pageSize := DefaultPageSize;
    }

    /** SetTimeout: only a positive duration is accepted. */
    method SetTimeout(timeout: int) returns (err: Option<Error>)
      modifies this`timeout
      ensures err.None? <==> timeout > 0
      ensures this.timeout == if timeout > 0 then timeout else old(this.timeout)
      ensures old(Valid()) ==> Valid()
    {
      if timeout <= 0 {
        return Some(Message("Invalid timeout"));
      }
      this.timeout := timeout;
      return None;
    }

    /** SetPageSize: only 1 to 1000 is accepted. */
    method SetPageSize(pageSize: int) returns (err: Option<Error>)
      modifies this`pageSize
      ensures err.None? <==> 1 <= pageSize <= MaxPageSize
      ensures this.pageSize == if err.None? then pageSize else old(this.pageSize)
      ensures old(Valid()) ==> Valid()
    {
      if pageSize < 1 || pageSize > MaxPageSize {
        return Some(Message("Invalid pageSize: " + IntToString(pageSize)));
      }
      this.pageSize := pageSize;
      return None;
    }

    /** The context a synchronisation pass of this client runs in. */
    function Ctx(now: Time): Context {
      Context(dryRun, now, server.setStateReply)
    }

    /** setFindingState: in dry-run the finding comes back as it is; otherwise one state change is sent. */
    method SetFindingState(f: Finding, newState: State, now: Time) returns (updated: Option<Finding>, err: Option<Error>)
      modifies server
      ensures dryRun ==>
        updated == Some(f) && err.None? && server.log == old(server.log) && server.store == old(server.store)
      ensures !dryRun ==>
        var call := Call.SetFindingState(SetFindingStateRequest(f.name, newState, now));
        && server.log == old(server.log) + [call]
        && server.store == server.Apply(old(server.store), call)
        && err == server.setStateReply(f.name)
        && updated == if err.None? then Some(ListedFinding(f.name, "", newState)) else None
    {
      if dryRun {
        return Some(f), None;
      }
      updated, err := server.SetFindingState(SetFindingStateRequest(f.name, newState, now));
    }

    /** ensureFindingState: nothing is sent when the finding already has the state it should have. */
    method EnsureFindingState(f: Finding, active: bool, now: Time) returns (mapped: Option<Finding>, err: Option<Error>)
      modifies server
      ensures var st := ChangeState(Ctx(now), f, DesiredState(active));
        && mapped == st.mapped && err == st.err
        && server.log == old(server.log) + AsSeq(st.call)
        && server.store == if st.call.Some? then server.Apply(old(server.store), st.call.value) else old(server.store)
    {
      var newState := DesiredState(active);
      if f.state == newState {
        return Some(f), None;
      }
      mapped, err := SetFindingState(f, newState, now);
    }

    /** One listed finding of mapFindingsPage: ensureStateFn applied and its outcome collected. */
    method MapFinding(f: Finding, desired: set<string>, now: Time, mapped: seq<Finding>, errs: seq<Error>)
      returns (mapped': seq<Finding>, errs': seq<Error>)
      modifies server
      ensures var st := Ensure(Ctx(now), desired, f);
        && mapped' == mapped + AsSeq(st.mapped) && errs' == errs + AsSeq(st.err)
        && server.log == old(server.log) + AsSeq(st.call)
        && server.store == if st.call.Some? then server.Apply(old(server.store), st.call.value) else old(server.store)
    {
      var m, e := EnsureFindingState(f, f.name in desired, now);
      mapped', errs' := mapped, errs;
      if e.Some? {
        errs' := errs' + [e.value];
      }
      if m.Some? {
        mapped' := mapped' + [m.value];
      }
    }

    /** The iteration of mapFindingsPage over the listed findings, up to the end of the listing. */
    method MapFindings(items: seq<Finding>, desired: set<string>, now: Time)
      returns (mapped: seq<Finding>, errs: seq<Error>)
      modifies server
      ensures var p := Walk(Ctx(now), desired, items);
        && mapped == p.mapped && errs == p.errs
        && server.log == old(server.log) + p.calls
        && server.store == server.Replay(old(server.store), p.calls)
    {
      ghost var log0, store0 := server.log, server.store;
      ghost var calls: seq<Call> := [];
      errs := [];
      mapped := [];
      for i := 0 to |items|
        invariant Walk(Ctx(now), desired, items[..i]) == Progress(mapped, errs, calls)
        invariant server.log == log0 + calls
        invariant server.store == server.Replay(store0, calls)
      {
        mapped, errs, calls := MapFindingStep(items[i], desired, now, mapped, errs, calls, log0, store0);
        assert Walk(Ctx(now), desired, items[..i + 1]) == Progress(mapped, errs, calls) by {
          WalkSnoc(Ctx(now), desired, items, i);
        }
      }
      assert items[..|items|] == items;
    }

    /** One turn of the iteration: the finding's step is appended to what came before it. */
    method MapFindingStep(f: Finding, desired: set<string>, now: Time,
                          mapped: seq<Finding>, errs: seq<Error>, ghost calls: seq<Call>,
                          ghost log0: seq<Call>, ghost store0: map<string, State>)
      returns (mapped': seq<Finding>, errs': seq<Error>, ghost calls': seq<Call>)
      requires server.log == log0 + calls
      requires server.store == server.Replay(store0, calls)
      modifies server
      ensures var st := Ensure(Ctx(now), desired, f);
        && mapped' == mapped + AsSeq(st.mapped) && errs' == errs + AsSeq(st.err) && calls' == calls + AsSeq(st.call)
      ensures server.log == log0 + calls'
      ensures server.store == server.Replay(store0, calls')
    {
      ghost var st := Ensure(Ctx(now), desired, f);
      mapped', errs' := MapFinding(f, desired, now, mapped, errs);
      calls' := calls + AsSeq(st.call);
      assert server.store == server.Replay(store0, calls') by {
        ReplayStep(server, Ctx(now), desired, store0, Progress(mapped, errs, calls), f);
      }
    }

    /**
     * mapFindingsPage with ensureStateFn as the mapping: every listed finding is brought to the
     * state it should have. The page token read back before iterating is the one sent.
     */
    method MapFindingsPage(source: string, pageToken: string, desired: set<string>, now: Time)
      returns (mapped: seq<Finding>, nextToken: string, err: Option<Error>)
      modifies server
      ensures var p := Walk(Ctx(now), desired, server.findings.items);
        && mapped == p.mapped && nextToken == pageToken && err == PageError(server.findings, p)
        && server.log == old(server.log) + [Call.ListFindings(ListFindingsRequest(source, pageSize, pageToken))] + p.calls
        && server.store == server.Replay(old(server.store), p.calls)
    {
      var it := server.ListFindings(ListFindingsRequest(source, pageSize, pageToken));
      nextToken := pageToken;
      var errs;
      mapped, errs := MapFindings(it.items, desired, now);
      if it.failure.Some? {
        return mapped, nextToken, Some(Aggregate([IteratorSentinel, it.failure.value]));
      }
      err := NewAggregate(errs);
    }

    /** The loop of syncFindingsState recording the name of every finding the mapping returned. */
    method CollectSyncedNames(mapped: seq<Finding>) returns (synced: set<string>)
      ensures forall n :: n in synced <==> exists i | 0 <= i < |mapped| :: mapped[i].name == n
    {
      synced := {};
      for i := 0 to |mapped|
        invariant forall n :: n in synced <==> exists j | 0 <= j < i :: mapped[j].name == n
      {
        synced := synced + {mapped[i].name};
      }
    }

    /** filterUnsyncedFindingRequests: the requests whose full finding name was not synced, each once. */
    method FilterUnsyncedFindingRequests(reqs: map<string, CreateFindingRequest>, synced: set<string>)
      returns (unsynced: seq<CreateFindingRequest>, ghost order: seq<string>)
      ensures Lists(reqs, UnsyncedKeys(reqs, synced), order, unsynced)
      ensures forall r | r in unsynced :: r in reqs.Values && RequestName(r) !in synced
      ensures forall k | k in reqs && RequestName(reqs[k]) !in synced :: reqs[k] in unsynced
    {
      var rest := reqs.Keys;
      unsynced, order := [], [];
      while rest != {}
        invariant rest <= reqs.Keys
        invariant Lists(reqs, UnsyncedKeys(reqs, synced) - rest, order, unsynced)
        invariant forall i | 0 <= i < |order| :: order[i] !in rest
        decreases rest
      {
        var k :| k in rest;
        if RequestName(reqs[k]) !in synced {
          unsynced := unsynced + [reqs[k]];
          order := order + [k];
        }
        rest := rest - {k};
      }
      forall k | k in reqs && RequestName(reqs[k]) !in synced
        ensures reqs[k] in unsynced
      {
        assert k in UnsyncedKeys(reqs, synced) && k in order;
        var i :| 0 <= i < |order| && order[i] == k;
        assert unsynced[i] == reqs[k];
      }
    }

    /**
     * syncFindingsState: one listing pass (the loop's token is always the empty one it started
     * with, so the pass is not repeated), then the unsynced requests. A failing listing stops it.
     */
    method SyncFindingsState(source: string, reqs: map<string, CreateFindingRequest>, now: Time)
      returns (unsynced: seq<CreateFindingRequest>, err: Option<Error>, ghost order: seq<string>)
      modifies server
      ensures var p := Walk(Ctx(now), reqs.Keys, server.findings.items);
        && server.log == old(server.log) + [Call.ListFindings(ListFindingsRequest(source, pageSize, ""))] + p.calls
        && server.store == server.Replay(old(server.store), p.calls)
        && (Aborts(PageError(server.findings, p)) ==> unsynced == [] && err == PageError(server.findings, p))
        && (!Aborts(PageError(server.findings, p)) ==>
              err == StateSyncError(p.errs) && Lists(reqs, UnsyncedKeys(reqs, SyncedNames(p.mapped)), order, unsynced))
    {
      var pageToken := "";
      var ensureErrs: seq<Error> := [];
      var mapped, nextToken, pageErr := MapFindingsPage(source, pageToken, reqs.Keys, now);
      ghost var p := Walk(Ctx(now), reqs.Keys, server.findings.items);
      if server.findings.failure.Some? {
        assert Is(pageErr.value.errors[0], IteratorSentinel);
      }
      if pageErr.Some? && Is(pageErr.value, IteratorSentinel) {
        return [], pageErr, [];
      }
      if pageErr.Some? {
        ensureErrs := ensureErrs + pageErr.value.errors;
      }
      assert ensureErrs == p.errs;
      var synced := CollectSyncedNames(mapped);
      // nextToken is pageToken, "": the listing loop ends after this pass
      unsynced, order := FilterUnsyncedFindingRequests(reqs, synced);
      if |ensureErrs| > 0 {
        return unsynced, Some(Wrapped("findings state sync errors", Aggregate(ensureErrs))), order;
      }
      return unsynced, None, order;
    }

    /** CreateFinding: in dry-run nothing is sent; a finding that already exists is not an error. */
    method CreateFinding(req: CreateFindingRequest) returns (err: Option<Error>)
      modifies server
      ensures dryRun ==> server.log == old(server.log) && server.store == old(server.store)
      ensures !dryRun ==>
        server.log == old(server.log) + [Call.CreateFinding(req)] &&
        server.store == server.Apply(old(server.store), Call.CreateFinding(req))
      ensures err == CreateError(dryRun, server.createReply(RequestName(req)))
    {
      if dryRun {
        return None;
      }
      var reply := server.CreateFinding(req);
      if reply.Some? {
        if !IsAlreadyExists(reply.value) {
          return reply;
        }
        return None;
      }
      return None;
    }

    /** The loop of SyncFindings over the unsynced requests: create each, collecting the errors. */
    method CreateFindings(reqs: seq<CreateFindingRequest>) returns (errs: seq<Error>)
      modifies server
      ensures errs == CreateErrors(dryRun, server.createReply, reqs)
      ensures server.log == old(server.log) + CreateCalls(dryRun, reqs)
      ensures server.store == server.Replay(old(server.store), CreateCalls(dryRun, reqs))
    {
      ghost var log0, store0 := server.log, server.store;
      errs := [];
      for i := 0 to |reqs|
        invariant errs == CreateErrors(dryRun, server.createReply, reqs[..i])
        invariant server.log == log0 + CreateCalls(dryRun, reqs[..i])
        invariant server.store == server.Replay(store0, CreateCalls(dryRun, reqs[..i]))
      {
        CreateSnoc(dryRun, server.createReply, reqs, i);
        var e := CreateFinding(reqs[i]);
        if !dryRun {
          ReplaySnoc(server, store0, CreateCalls(dryRun, reqs[..i]), Call.CreateFinding(reqs[i]));
        }
        if e.Some? {
          errs := errs + [e.value];
        }
      }
      assert reqs[..|reqs|] == reqs;
    }

    /**
     * What one SyncFindings call does, from the server's log and store before it: a ListFindings
     * request, the state changes of the walk over the listed findings, then (unless that pass aborts,
     * or only failed state changes are left to report) the creation of every unsynced request.
     */
    ghost predicate SyncEffect(log0: seq<Call>, store0: map<string, State>, source: string,
                               reqs: map<string, CreateFindingRequest>, now: Time,
                               err: Option<Error>, order: seq<string>, unsynced: seq<CreateFindingRequest>)
      reads this, server
    {
      var p := Walk(Ctx(now), reqs.Keys, server.findings.items);
      var listCall := Call.ListFindings(ListFindingsRequest(source, pageSize, ""));
      && (Aborts(PageError(server.findings, p)) ==>
            && err == PageError(server.findings, p)
            && server.log == log0 + [listCall] + p.calls
            && server.store == server.Replay(store0, p.calls))
      && (!Aborts(PageError(server.findings, p)) ==>
            && Lists(reqs, UnsyncedKeys(reqs, SyncedNames(p.mapped)), order, unsynced)
            && (unsynced == [] && p.errs != [] ==> err == StateSyncError(p.errs))
            && (unsynced != [] || p.errs == [] ==>
                  err == NewAggregate(CreateErrors(dryRun, server.createReply, unsynced)))
            && server.log == log0 + [listCall] + p.calls + CreateCalls(dryRun, unsynced)
            && server.store == server.Replay(server.Replay(store0, p.calls), CreateCalls(dryRun, unsynced)))
    }

    /**
     * SyncFindings: synchronise the states of the listed findings, then create the findings of the
     * unsynced requests. The state-sync error is returned only when no request is left to create.
     */
    method SyncFindings(source: string, reqs: map<string, CreateFindingRequest>, now: Time)
      returns (err: Option<Error>, ghost order: seq<string>, ghost unsynced: seq<CreateFindingRequest>)
      modifies server
      ensures SyncEffect(old(server.log), old(server.store), source, reqs, now, err, order, unsynced)
    {
      var newRequests, stateErr, keys := SyncFindingsState(source, reqs, now);
      order, unsynced := keys, newRequests;
      if stateErr.Some? && |newRequests| == 0 {
        return stateErr, order, unsynced;
      }
      var createErrs := CreateFindings(newRequests);
      err := NewAggregate(createErrs);
    }

    /** GetSourceNameForDisplayName: the first source of the organisation with that display name, ignoring case. */
    method GetSourceNameForDisplayName(organizationId: string, displayName: string) returns (name: string, err: Option<Error>)
      modifies server`log
      ensures server.log == old(server.log) + [Call.ListSources(OrganizationName(organizationId), 0)]
      ensures var r := FindSource(server.sources.items, server.sources.failure, displayName);
        if r.Ok? then name == r.value && err.None? else name == "" && err == Some(r.error)
    {
      var it := server.ListSources(OrganizationName(organizationId), 0);
      var i := 0;
      while i < |it.items|
        invariant 0 <= i <= |it.items|
        invariant FindSource(it.items[i..], it.failure, displayName) == FindSource(it.items, it.failure, displayName)
      {
        assert it.items[i..][1..] == it.items[i + 1..];
        if EqualFold(displayName, it.items[i].displayName) {
          return it.items[i].name, None;
        }
        i := i + 1;
      }
      if it.failure.Some? {
        return "", Some(Wrapped("it.Next error when finding source by display name", it.failure.value));
      }
      return "", None;
    }

    /** ListSources: every source of the organisation, or the listing's error, wrapped. */
    method ListSources(organizationId: string) returns (r: Result<seq<Source>, Error>)
      modifies server`log
      ensures server.log == old(server.log) + [Call.ListSources(OrganizationName(organizationId), pageSize)]
      ensures r == if server.sources.failure.Some?
        then Err(Wrapped("it.Next error when listing sources", server.sources.failure.value))
        else Ok(server.sources.items)
    {
      var it := server.ListSources(OrganizationName(organizationId), pageSize);
      var sources: seq<Source> := [];
      for i := 0 to |it.items|
        invariant sources == it.items[..i]
      {
        sources := sources + [it.items[i]];
      }
      if it.failure.Some? {
        return Err(Wrapped("it.Next error when listing sources", it.failure.value));
      }
      assert it.items[..|it.items|] == it.items;
      return Ok(sources);
    }

    /** CreateSource: refused when a source with the display name exists; not sent in dry-run. */
    method CreateSource(organizationId: string, displayName: string, description: string)
      returns (r: Result<Source, Error>)
      modifies server`log
      ensures var found := FindSource(server.sources.items, server.sources.failure, displayName);
        var lookup := Call.ListSources(OrganizationName(organizationId), 0);
        var source := Source("", displayName, description);
        && (found.Err? ==> r == Err(found.error) && server.log == old(server.log) + [lookup])
        && (found.Ok? && found.value != "" ==>
              r == Err(Message("source already exists for organizationID=<" + organizationId +
                               "> with displayName=<" + displayName + ">")) &&
              server.log == old(server.log) + [lookup])
        && (found == Ok("") && dryRun ==> r == Ok(source) && server.log == old(server.log) + [lookup])
        && (found == Ok("") && !dryRun ==>
              r == server.createSourceReply &&
              server.log == old(server.log) + [lookup, Call.CreateSource(OrganizationName(organizationId), source)])
    {
      var existing, err := GetSourceNameForDisplayName(organizationId, displayName);
      if err.Some? {
        return Err(err.value);
      }
      if existing != "" {
        return Err(Message("source already exists for organizationID=<" + organizationId +
                           "> with displayName=<" + displayName + ">"));
      }
      var source := Source("", displayName, description);
      if dryRun {
        return Ok(source);
      }
      r := server.CreateSource(OrganizationName(organizationId), source);
    }

    /** GetIamPolicy: asks for policy version 3 of the source. */
    method GetIamPolicy(source: string) returns (r: Result<Policy, Error>)
      modifies server`log
      ensures server.log == old(server.log) + [Call.GetIamPolicy(source, RequestedPolicyVersion)]
      ensures r == server.policyReply
    {
      r := server.GetIamPolicy(source, RequestedPolicyVersion);
    }

    /** SetIamPolicy: in dry-run the policy comes back unsent. */
    method SetIamPolicy(source: string, policy: Policy) returns (r: Result<Policy, Error>)
      modifies server`log
      ensures dryRun ==> r == Ok(policy) && server.log == old(server.log)
      ensures !dryRun ==>
        server.log == old(server.log) + [Call.SetIamPolicy(source, policy)] &&
        r == server.setPolicyReply(policy)
    {
      if dryRun {
        return Ok(policy);
      }
      r := server.SetIamPolicy(source, policy);
    }
  }
}
