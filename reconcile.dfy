/**
 * What synchronising finding states does, as functions over the listed
 * findings: pkg/securitycenter/findings.go. The client methods of module
 * SecurityCenter are proved to issue exactly these requests and return
 * exactly these results.
 */
module Reconcile {
  import opened Wrappers
  import opened Errors
  import opened Api
  import opened Remote

  /** The state a listed finding should have: ACTIVE when a request for it exists, INACTIVE otherwise. */
  function DesiredState(active: bool): (s: State)
    ensures s.Active? <==> active
    ensures s.Inactive? <==> !active
  {
    if active then Active else Inactive
  }

  /** What one synchronisation pass depends on besides the listed findings. */
  datatype Context = Context(
    dryRun: bool,
    now: Time,                               // one clock reading, put on every state change of the pass
    setStateReply: string -> Option<Error>)  // how the service answers a state change, by name

  /** The state the listed finding of a name should have, given the full names of the requested findings. */
  function Want(desired: set<string>, name: string): State {
    DesiredState(name in desired)
  }

  /** A listed finding whose state differs from the one it should have. */
  predicate Mismatch(desired: set<string>, f: Finding) {
    f.state != Want(desired, f.name)
  }

  /** The request a state change sends. */
  function SetRequest(ctx: Context, desired: set<string>, f: Finding): SetFindingStateRequest {
    SetFindingStateRequest(f.name, Want(desired, f.name), ctx.now)
  }

  /** ensureFindingState applied to one finding: the mapped finding, the error and the request sent. */
  datatype Step = Step(mapped: Option<Finding>, err: Option<Error>, call: Option<Call>)

  function Ensure(ctx: Context, desired: set<string>, f: Finding): Step {
    ChangeState(ctx, f, Want(desired, f.name))
  }

  /** ensureFindingState with the state the finding should have. */
  function ChangeState(ctx: Context, f: Finding, want: State): Step {
    if f.state == want || ctx.dryRun then Step(Some(f), None, None)
    else
      var reply := ctx.setStateReply(f.name);
      Step(if reply.None? then Some(ListedFinding(f.name, "", want)) else None,
           reply,
           Some(Call.SetFindingState(SetFindingStateRequest(f.name, want, ctx.now))))
  }

  function AsSeq<T>(o: Option<T>): seq<T> {
    if o.Some? then [o.value] else []
  }

  /** What mapping ensureFindingState over listed findings collects. */
  datatype Progress = Progress(mapped: seq<Finding>, errs: seq<Error>, calls: seq<Call>)

  function Walk(ctx: Context, desired: set<string>, fs: seq<Finding>): Progress
    decreases |fs|
  {
    if fs == [] then Progress([], [], [])
    else
      var p := Walk(ctx, desired, fs[..|fs| - 1]);
      var s := Ensure(ctx, desired, fs[|fs| - 1]);
      Progress(p.mapped + AsSeq(s.mapped), p.errs + AsSeq(s.err), p.calls + AsSeq(s.call))
  }

  /** The names of the findings that came back from the mapping. */
  function SyncedNames(mapped: seq<Finding>): set<string> {
    set i | 0 <= i < |mapped| :: mapped[i].name
  }

  /** A finding counts as synced when it already had its state, in dry-run, or when the change succeeded. */
  predicate Synced(ctx: Context, desired: set<string>, f: Finding) {
    !Mismatch(desired, f) || ctx.dryRun || ctx.setStateReply(f.name).None?
  }

  /** The keys of the requests whose full finding name was not synced. */
  function UnsyncedKeys(reqs: map<string, CreateFindingRequest>, synced: set<string>): set<string> {
    set k | k in reqs && RequestName(reqs[k]) !in synced
  }

  /** Every request is keyed by the full name of the finding it creates. */
  predicate WellKeyed(reqs: map<string, CreateFindingRequest>) {
    forall k | k in reqs :: RequestName(reqs[k]) == k
  }

  /** The error mapFindingsPage returns for a listing and the mapping's progress. */
  function PageError(listing: Listing<Finding>, p: Progress): Option<Error> {
    if listing.failure.Some? then Some(Aggregate([IteratorSentinel, listing.failure.value]))
    else NewAggregate(p.errs)
  }

  /** The page error stops the synchronisation: errors.Is finds errIterator in it. */
  predicate Aborts(e: Option<Error>) {
    e.Some? && Is(e.value, IteratorSentinel)
  }

  /** The error syncFindingsState returns after a complete listing. */
  function StateSyncError(errs: seq<Error>): Option<Error> {
    if errs == [] then None else Some(Wrapped("findings state sync errors", Aggregate(errs)))
  }

  /** The error CreateFinding returns for the service's reply; AlreadyExists counts as success. */
  function CreateError(dryRun: bool, reply: Option<Error>): (r: Option<Error>)
  {
    if dryRun || reply.None? || IsAlreadyExists(reply.value) then None else reply
  }

  /**
   * `out` lists the requests of `keys`, each once, in the order `order` (Go leaves the iteration
   * order of a map unspecified).
   */
  predicate Lists(reqs: map<string, CreateFindingRequest>, keys: set<string>, order: seq<string>,
                  out: seq<CreateFindingRequest>) {
    && |order| == |out|
    && (forall i | 0 <= i < |order| :: order[i] in reqs && out[i] == reqs[order[i]])
    && (forall i, j | 0 <= i < j < |order| :: order[i] != order[j])
    && (forall k | k in keys :: k in order)
    && (forall i | 0 <= i < |order| :: order[i] in keys)
  }

  /** The create requests sent for the unsynced requests: one each, none in dry-run. */
  function CreateCalls(dryRun: bool, reqs: seq<CreateFindingRequest>): (calls: seq<Call>)
    ensures dryRun ==> calls == []
    ensures !dryRun ==> |calls| == |reqs| && forall i | 0 <= i < |reqs| :: calls[i] == Call.CreateFinding(reqs[i])
  {
    if dryRun then [] else seq(|reqs|, i requires 0 <= i < |reqs| => Call.CreateFinding(reqs[i]))
  }

  /** The errors creating the unsynced findings collects, in order. */
  function CreateErrors(dryRun: bool, createReply: string -> Option<Error>, reqs: seq<CreateFindingRequest>): seq<Error>
    decreases |reqs|
  {
    if reqs == [] then []
    else CreateErrors(dryRun, createReply, reqs[..|reqs| - 1]) +
         AsSeq(CreateError(dryRun, createReply(RequestName(reqs[|reqs| - 1]))))
  }

  // ------------------------------------------------------------------ lemmas

  /** No state change is requested in dry-run. */
  lemma {:induction false} WalkCallsDryRun(ctx: Context, desired: set<string>, fs: seq<Finding>)
    requires ctx.dryRun
    ensures Walk(ctx, desired, fs).calls == []
    decreases |fs|
  {
    if fs != [] {
      WalkCallsDryRun(ctx, desired, fs[..|fs| - 1]);
    }
  }

  /** A request that changes a listed finding, in the wrong state, to the state it should have. */
  predicate Corrects(ctx: Context, desired: set<string>, fs: seq<Finding>, c: Call) {
    && c.SetFindingState?
    && c.setRequest.state == Want(desired, c.setRequest.name)
    && c.setRequest.startTime == ctx.now
    && exists i | 0 <= i < |fs| :: fs[i].name == c.setRequest.name && Mismatch(desired, fs[i])
  }

  /** Every state change requested corrects a listed finding in the wrong state; at most one per finding. */
  lemma {:induction false} WalkCallsCorrect(ctx: Context, desired: set<string>, fs: seq<Finding>)
    ensures |Walk(ctx, desired, fs).calls| <= |fs|
    ensures forall c | c in Walk(ctx, desired, fs).calls :: Corrects(ctx, desired, fs, c)
    decreases |fs|
  {
    if fs != [] {
      var init := fs[..|fs| - 1];
      var last := fs[|fs| - 1];
      var p := Walk(ctx, desired, init);
      var st := Ensure(ctx, desired, last);
      WalkCallsCorrect(ctx, desired, init);
      assert Walk(ctx, desired, fs).calls == p.calls + AsSeq(st.call);
      forall c | c in p.calls + AsSeq(st.call)
        ensures Corrects(ctx, desired, fs, c)
      {
        if c in p.calls {
          assert Corrects(ctx, desired, init, c);
          var i :| 0 <= i < |init| && init[i].name == c.setRequest.name && Mismatch(desired, init[i]);
          assert fs[i] == init[i];
        } else {
          assert fs[|fs| - 1].name == c.setRequest.name && Mismatch(desired, fs[|fs| - 1]);
        }
      }
    }
  }

  /** Outside dry-run, every listed finding in the wrong state gets its state change requested. */
  lemma {:induction false} WalkCallsCover(ctx: Context, desired: set<string>, fs: seq<Finding>, i: nat)
    requires i < |fs| && Mismatch(desired, fs[i]) && !ctx.dryRun
    ensures Call.SetFindingState(SetRequest(ctx, desired, fs[i])) in Walk(ctx, desired, fs).calls
    decreases |fs|
  {
    var init := fs[..|fs| - 1];
    var p := Walk(ctx, desired, init);
    var st := Ensure(ctx, desired, fs[|fs| - 1]);
    assert Walk(ctx, desired, fs).calls == p.calls + AsSeq(st.call);
    if i < |init| {
      assert init[i] == fs[i];
      WalkCallsCover(ctx, desired, init, i);
    }
  }

  /** Some listed finding of the name counts as synced. */
  predicate SyncedAmong(ctx: Context, desired: set<string>, fs: seq<Finding>, name: string) {
    exists i | 0 <= i < |fs| :: fs[i].name == name && Synced(ctx, desired, fs[i])
  }

  lemma SyncedNamesAppend(a: seq<Finding>, b: seq<Finding>, name: string)
    ensures name in SyncedNames(a + b) <==> name in SyncedNames(a) || name in SyncedNames(b)
  {
    if name in SyncedNames(a + b) {
      var j :| 0 <= j < |a + b| && (a + b)[j].name == name;
      if j >= |a| {
        assert b[j - |a|].name == name;
      }
    }
    if name in SyncedNames(a) {
      var j :| 0 <= j < |a| && a[j].name == name;
      assert (a + b)[j].name == name;
    }
    if name in SyncedNames(b) {
      var j :| 0 <= j < |b| && b[j].name == name;
      assert (a + b)[|a| + j].name == name;
    }
  }

  /** The one finding a step maps carries the listed finding's name, and is there exactly when it counts as synced. */
  lemma EnsureSyncedName(ctx: Context, desired: set<string>, f: Finding, name: string)
    ensures name in SyncedNames(AsSeq(Ensure(ctx, desired, f).mapped)) <==> f.name == name && Synced(ctx, desired, f)
  {
    var m := AsSeq(Ensure(ctx, desired, f).mapped);
    if Synced(ctx, desired, f) {
      assert m[0].name == f.name;
    }
  }

  /** A name is among the synced names exactly when a listed finding of that name counts as synced. */
  lemma {:induction false} WalkSyncedNames(ctx: Context, desired: set<string>, fs: seq<Finding>, name: string)
    ensures name in SyncedNames(Walk(ctx, desired, fs).mapped) <==> SyncedAmong(ctx, desired, fs, name)
    decreases |fs|
  {
    if fs != [] {
      var init := fs[..|fs| - 1];
      var last := fs[|fs| - 1];
      var p := Walk(ctx, desired, init);
      var m := AsSeq(Ensure(ctx, desired, last).mapped);
      assert Walk(ctx, desired, fs).mapped == p.mapped + m;
      assert name in SyncedNames(p.mapped + m) <==> SyncedAmong(ctx, desired, init, name) || (last.name == name && Synced(ctx, desired, last)) by {
        WalkSyncedNames(ctx, desired, init, name);
        SyncedNamesAppend(p.mapped, m, name);
        EnsureSyncedName(ctx, desired, last, name);
      }
      assert SyncedAmong(ctx, desired, fs, name) <==> SyncedAmong(ctx, desired, init, name) || (last.name == name && Synced(ctx, desired, last)) by {
        if SyncedAmong(ctx, desired, fs, name) && !(last.name == name && Synced(ctx, desired, last)) {
          var i :| 0 <= i < |fs| && fs[i].name == name && Synced(ctx, desired, fs[i]);
          assert i < |init| && init[i] == fs[i];
        }
        if SyncedAmong(ctx, desired, init, name) {
          var i :| 0 <= i < |init| && init[i].name == name && Synced(ctx, desired, init[i]);
          assert fs[i] == init[i];
        }
      }
    }
  }

  /** No mapping error exactly when every listed finding counts as synced. */
  lemma {:induction false} WalkErrorsEmpty(ctx: Context, desired: set<string>, fs: seq<Finding>)
    ensures Walk(ctx, desired, fs).errs == [] <==> forall i | 0 <= i < |fs| :: Synced(ctx, desired, fs[i])
    decreases |fs|
  {
    if fs != [] {
      var init := fs[..|fs| - 1];
      var last := fs[|fs| - 1];
      WalkErrorsEmpty(ctx, desired, init);
      var st := Ensure(ctx, desired, last);
      assert Walk(ctx, desired, fs).errs == Walk(ctx, desired, init).errs + AsSeq(st.err);
      assert st.err.None? <==> Synced(ctx, desired, last);
      assert (forall i | 0 <= i < |fs| :: Synced(ctx, desired, fs[i])) <==>
        (forall i | 0 <= i < |init| :: Synced(ctx, desired, init[i])) && Synced(ctx, desired, last) by {
        assert forall i | 0 <= i < |init| :: init[i] == fs[i];
      }
    }
  }

  /** A failed change, by its name: a listed finding in the wrong state whose change the service refused. */
  predicate FailedWith(ctx: Context, desired: set<string>, fs: seq<Finding>, e: Error) {
    exists i | 0 <= i < |fs| :: !Synced(ctx, desired, fs[i]) && ctx.setStateReply(fs[i].name) == Some(e)
  }

  /** Every mapping error is the service's answer to a failed state change. */
  lemma {:induction false} WalkErrorsFromReplies(ctx: Context, desired: set<string>, fs: seq<Finding>)
    ensures forall e | e in Walk(ctx, desired, fs).errs :: FailedWith(ctx, desired, fs, e)
    decreases |fs|
  {
    if fs != [] {
      var init := fs[..|fs| - 1];
      WalkErrorsFromReplies(ctx, desired, init);
      var p := Walk(ctx, desired, init);
      forall e | e in Walk(ctx, desired, fs).errs
        ensures FailedWith(ctx, desired, fs, e)
      {
        if e in p.errs {
          assert FailedWith(ctx, desired, init, e);
          var i :| 0 <= i < |init| && !Synced(ctx, desired, init[i]) && ctx.setStateReply(init[i].name) == Some(e);
          assert fs[i] == init[i];
        } else {
          var last := |fs| - 1;
          assert !Synced(ctx, desired, fs[last]) && ctx.setStateReply(fs[last].name) == Some(e);
        }
      }
    }
  }

  /** Replaying a sequence of requests split in two is replaying each part in turn. */
  lemma {:induction false} ReplayAppend(server: Server, s: map<string, State>, a: seq<Call>, b: seq<Call>)
    ensures server.Replay(s, a + b) == server.Replay(server.Replay(s, a), b)
    decreases |b|
  {
    if b == [] {
      assert a + b == a;
    } else {
      assert (a + b)[..|a + b| - 1] == a + b[..|b| - 1];
      ReplayAppend(server, s, a, b[..|b| - 1]);
    }
  }

  /** A listed finding whose state change was requested and succeeded. */
  predicate Changed(ctx: Context, desired: set<string>, fs: seq<Finding>, name: string) {
    exists i | 0 <= i < |fs| :: fs[i].name == name && Mismatch(desired, fs[i]) && !ctx.dryRun &&
      ctx.setStateReply(name).None?
  }

  /** No state change is requested for the name. */
  predicate Untouched(ctx: Context, desired: set<string>, fs: seq<Finding>, name: string) {
    ctx.dryRun || forall i | 0 <= i < |fs| :: fs[i].name == name ==> !Mismatch(desired, fs[i])
  }

  /** Replaying one more request applies it to the replayed store. */
  lemma ReplaySnoc(server: Server, s: map<string, State>, calls: seq<Call>, c: Call)
    ensures server.Replay(s, calls + [c]) == server.Apply(server.Replay(s, calls), c)
  {
    assert (calls + [c])[..|calls + [c]| - 1] == calls;
  }

  /** Walking one more listed finding appends that finding's step. */
  lemma WalkSnoc(ctx: Context, desired: set<string>, fs: seq<Finding>, i: nat)
    requires i < |fs|
    ensures var p := Walk(ctx, desired, fs[..i]);
      var st := Ensure(ctx, desired, fs[i]);
      Walk(ctx, desired, fs[..i + 1]) ==
        Progress(p.mapped + AsSeq(st.mapped), p.errs + AsSeq(st.err), p.calls + AsSeq(st.call))
  {
    assert fs[..i + 1][..i] == fs[..i];
  }

  /** Creating one more unsynced finding appends its request and its error. */
  lemma CreateSnoc(dryRun: bool, createReply: string -> Option<Error>, reqs: seq<CreateFindingRequest>, i: nat)
    requires i < |reqs|
    ensures CreateCalls(dryRun, reqs[..i + 1]) ==
      CreateCalls(dryRun, reqs[..i]) + (if dryRun then [] else [Call.CreateFinding(reqs[i])])
    ensures CreateErrors(dryRun, createReply, reqs[..i + 1]) ==
      CreateErrors(dryRun, createReply, reqs[..i]) + AsSeq(CreateError(dryRun, createReply(RequestName(reqs[i]))))
  {
    assert reqs[..i + 1][..i] == reqs[..i];
  }

  /** Replaying the requests of one step. */
  lemma ReplayStep(server: Server, ctx: Context, desired: set<string>, s: map<string, State>, p: Progress, f: Finding)
    requires ctx.setStateReply == server.setStateReply
    ensures var st := Ensure(ctx, desired, f);
      server.Replay(s, p.calls + AsSeq(st.call)) ==
        if st.call.Some? then server.Apply(server.Replay(s, p.calls), st.call.value)
        else server.Replay(s, p.calls)
  {
    var st := Ensure(ctx, desired, f);
    ReplayAppend(server, s, p.calls, AsSeq(st.call));
    if st.call.Some? {
      assert [st.call.value][..0] == [];
    }
  }

  /** The stored state after one step, for a single name. */
  function AfterStep(server: Server, ctx: Context, desired: set<string>, t: map<string, State>, f: Finding): map<string, State> {
    var st := Ensure(ctx, desired, f);
    if st.call.Some? then server.Apply(t, st.call.value) else t
  }

  /** A step never moves a name away from the state it should have. */
  lemma AfterStepKeepsWanted(server: Server, ctx: Context, desired: set<string>, t: map<string, State>, f: Finding, name: string)
    requires ctx.setStateReply == server.setStateReply
    requires name in t && t[name] == Want(desired, name)
    ensures var t' := AfterStep(server, ctx, desired, t, f); name in t' && t'[name] == Want(desired, name)
  {
  }

  /** A successful change of a listed finding stores the state it should have. */
  lemma AfterStepSets(server: Server, ctx: Context, desired: set<string>, t: map<string, State>, f: Finding)
    requires ctx.setStateReply == server.setStateReply
    requires Mismatch(desired, f) && !ctx.dryRun && ctx.setStateReply(f.name).None?
    ensures var t' := AfterStep(server, ctx, desired, t, f); f.name in t' && t'[f.name] == Want(desired, f.name)
  {
  }

  /** A listed finding whose state change succeeded is stored with the state it should have. */
  lemma {:induction false} WalkStoreChanged(server: Server, ctx: Context, desired: set<string>, s: map<string, State>, fs: seq<Finding>, name: string)
    requires ctx.setStateReply == server.setStateReply
    requires Changed(ctx, desired, fs, name)
    ensures var t := server.Replay(s, Walk(ctx, desired, fs).calls);
      name in t && t[name] == Want(desired, name)
    decreases |fs|
  {
    var init := fs[..|fs| - 1];
    var last := fs[|fs| - 1];
    var p := Walk(ctx, desired, init);
    var t0 := server.Replay(s, p.calls);
    assert server.Replay(s, Walk(ctx, desired, fs).calls) == AfterStep(server, ctx, desired, t0, last) by {
      ReplayStep(server, ctx, desired, s, p, last);
    }
    if last.name == name && Mismatch(desired, last) {
      AfterStepSets(server, ctx, desired, t0, last);
    } else {
      assert name in t0 && t0[name] == Want(desired, name) by {
        var i :| 0 <= i < |fs| && fs[i].name == name && Mismatch(desired, fs[i]) && !ctx.dryRun &&
          ctx.setStateReply(name).None?;
        assert Changed(ctx, desired, init, name) by {
          assert i < |init| && init[i] == fs[i];
        }
        WalkStoreChanged(server, ctx, desired, s, init, name);
      }
      AfterStepKeepsWanted(server, ctx, desired, t0, last, name);
    }
  }

  /** A name no state change was requested for keeps what the store held. */
  lemma {:induction false} WalkStoreUntouched(server: Server, ctx: Context, desired: set<string>, s: map<string, State>, fs: seq<Finding>, name: string)
    requires ctx.setStateReply == server.setStateReply
    requires Untouched(ctx, desired, fs, name)
    ensures var t := server.Replay(s, Walk(ctx, desired, fs).calls);
      (name in t <==> name in s) && (name in s ==> t[name] == s[name])
    decreases |fs|
  {
    if fs != [] {
      var init := fs[..|fs| - 1];
      var p := Walk(ctx, desired, init);
      ReplayStep(server, ctx, desired, s, p, fs[|fs| - 1]);
      assert Untouched(ctx, desired, init, name) by {
        if !ctx.dryRun {
          forall i | 0 <= i < |init| && init[i].name == name ensures !Mismatch(desired, init[i]) {
            assert init[i] == fs[i];
          }
        }
      }
      WalkStoreUntouched(server, ctx, desired, s, init, name);
    }
  }

  /** State changes never remove a stored finding. */
  lemma {:induction false} WalkStoreKeeps(server: Server, ctx: Context, desired: set<string>, s: map<string, State>, fs: seq<Finding>)
    requires ctx.setStateReply == server.setStateReply
    ensures s.Keys <= server.Replay(s, Walk(ctx, desired, fs).calls).Keys
    decreases |fs|
  {
    if fs != [] {
      var init := fs[..|fs| - 1];
      ReplayStep(server, ctx, desired, s, Walk(ctx, desired, init), fs[|fs| - 1]);
      WalkStoreKeeps(server, ctx, desired, s, init);
    }
  }

  /** With requests keyed by their finding names, the unsynced ones are those whose name was not synced. */
  lemma UnsyncedAreMissing(reqs: map<string, CreateFindingRequest>, synced: set<string>)
    requires WellKeyed(reqs)
    ensures UnsyncedKeys(reqs, synced) == reqs.Keys - synced
  {
  }

  /** The create of a request fails for good: outside dry-run, with an error other than AlreadyExists. */
  predicate CreateFailed(dryRun: bool, createReply: string -> Option<Error>, req: CreateFindingRequest) {
    !dryRun && createReply(RequestName(req)).Some? && !IsAlreadyExists(createReply(RequestName(req)).value)
  }

  /**
   * The positions idx of the failed creates, in increasing order, with errs holding the service's
   * error for each of them.
   */
  predicate FailedAt(dryRun: bool, createReply: string -> Option<Error>, reqs: seq<CreateFindingRequest>,
                     idx: seq<nat>, errs: seq<Error>) {
    && |idx| == |errs|
    && (forall k | 0 <= k < |idx| :: idx[k] < |reqs| && CreateFailed(dryRun, createReply, reqs[idx[k]]) &&
          errs[k] == createReply(RequestName(reqs[idx[k]])).value)
    && (forall k, l | 0 <= k < l < |idx| :: idx[k] < idx[l])
    && (forall i | 0 <= i < |reqs| && CreateFailed(dryRun, createReply, reqs[i]) :: i in idx)
  }

  /**
   * The errors creating reports are the service's errors for exactly the requests whose create failed
   * for good, one each, in request order: none in dry-run, none for AlreadyExists.
   */
  lemma {:induction false} CreateErrorsAreFailedReplies(dryRun: bool, createReply: string -> Option<Error>,
                                                        reqs: seq<CreateFindingRequest>)
    ensures exists idx :: FailedAt(dryRun, createReply, reqs, idx, CreateErrors(dryRun, createReply, reqs))
    decreases |reqs|
  {
    if reqs == [] {
      var none: seq<nat> := [];
      assert FailedAt(dryRun, createReply, reqs, none, CreateErrors(dryRun, createReply, reqs));
    } else {
      var n := |reqs| - 1;
      CreateErrorsAreFailedReplies(dryRun, createReply, reqs[..n]);
      var errs0 := CreateErrors(dryRun, createReply, reqs[..n]);
      var idx0: seq<nat> :| FailedAt(dryRun, createReply, reqs[..n], idx0, errs0);
      var reply := createReply(RequestName(reqs[n]));
      if CreateFailed(dryRun, createReply, reqs[n]) {
        assert CreateErrors(dryRun, createReply, reqs) == errs0 + [reply.value];
        FailedAtExtend(dryRun, createReply, reqs, idx0, errs0);
      } else {
        assert CreateErrors(dryRun, createReply, reqs) == errs0;
        FailedAtExtend(dryRun, createReply, reqs, idx0, errs0);
      }
    }
  }

  /** One more request: its failure, if any, is the next error, at the next position. */
  lemma FailedAtExtend(dryRun: bool, createReply: string -> Option<Error>, reqs: seq<CreateFindingRequest>,
                       idx0: seq<nat>, errs0: seq<Error>)
    requires |reqs| > 0 && FailedAt(dryRun, createReply, reqs[..|reqs| - 1], idx0, errs0)
    ensures var n := |reqs| - 1;
      CreateFailed(dryRun, createReply, reqs[n]) ==>
        FailedAt(dryRun, createReply, reqs, idx0 + [n], errs0 + [createReply(RequestName(reqs[n])).value])
    ensures !CreateFailed(dryRun, createReply, reqs[|reqs| - 1]) ==> FailedAt(dryRun, createReply, reqs, idx0, errs0)
  {
    var n := |reqs| - 1;
    var init := reqs[..n];
    forall k | 0 <= k < |idx0| ensures idx0[k] < n && reqs[idx0[k]] == init[idx0[k]] { }
    if CreateFailed(dryRun, createReply, reqs[n]) {
      var idx := idx0 + [n];
      forall i | 0 <= i < |reqs| && CreateFailed(dryRun, createReply, reqs[i]) ensures i in idx {
        if i < n {
          assert init[i] == reqs[i];
          assert i in idx0;
        } else {
          assert idx[|idx0|] == i;
        }
      }
    } else {
      forall i | 0 <= i < |reqs| && CreateFailed(dryRun, createReply, reqs[i]) ensures i in idx0 {
        assert i < n && init[i] == reqs[i];
      }
    }
  }

  /** A page error caused by the listing always stops the synchronisation; mapping errors never do. */
  lemma PageErrorAborts(listing: Listing<Finding>, p: Progress)
    requires forall e | e in p.errs :: !Is(e, IteratorSentinel)
    ensures Aborts(PageError(listing, p)) <==> listing.failure.Some?
  {
    if listing.failure.Some? {
      var agg := Aggregate([IteratorSentinel, listing.failure.value]);
      assert Is(agg.errors[0], IteratorSentinel);
    } else if p.errs != [] {
      var agg := Aggregate(p.errs);
      assert !Is(agg, IteratorSentinel) by {
        forall i | 0 <= i < |p.errs| ensures !Is(p.errs[i], IteratorSentinel) {
          assert p.errs[i] in p.errs;
        }
      }
    }
  }

  // ------------------------------------------------------------------ convergence

  /** Creating findings leaves alone every name none of the requests creates. */
  lemma {:induction false} CreatesUntouched(server: Server, s: map<string, State>, reqs: seq<CreateFindingRequest>, name: string)
    requires forall j | 0 <= j < |reqs| :: RequestName(reqs[j]) != name
    ensures var t := server.Replay(s, CreateCalls(false, reqs));
      (name in t <==> name in s) && (name in s ==> t[name] == s[name])
    decreases |reqs|
  {
    if reqs != [] {
      var n := |reqs| - 1;
      assert reqs[..n + 1] == reqs;
      CreateSnoc(false, server.createReply, reqs, n);
      ReplaySnoc(server, s, CreateCalls(false, reqs[..n]), Call.CreateFinding(reqs[n]));
      CreatesUntouched(server, s, reqs[..n], name);
    }
  }

  /** A finding created successfully is stored ACTIVE, whatever else is created after it. */
  lemma {:induction false} CreatesActive(server: Server, s: map<string, State>, reqs: seq<CreateFindingRequest>, name: string)
    requires exists j | 0 <= j < |reqs| :: RequestName(reqs[j]) == name
    requires forall j | 0 <= j < |reqs| :: reqs[j].finding.state == Active
    requires server.createReply(name).None?
    ensures var t := server.Replay(s, CreateCalls(false, reqs)); name in t && t[name] == Active
    decreases |reqs|
  {
    var n := |reqs| - 1;
    assert reqs[..n + 1] == reqs;
    CreateSnoc(false, server.createReply, reqs, n);
    ReplaySnoc(server, s, CreateCalls(false, reqs[..n]), Call.CreateFinding(reqs[n]));
    if RequestName(reqs[n]) != name {
      var j :| 0 <= j < |reqs| && RequestName(reqs[j]) == name;
      assert j < n && reqs[..n][j] == reqs[j];
      CreatesActive(server, s, reqs[..n], name);
    }
  }

  /** Every listed finding is stored with the state it was listed with. */
  predicate ListedFrom(s: map<string, State>, fs: seq<Finding>) {
    forall i | 0 <= i < |fs| :: fs[i].name in s && s[fs[i].name] == fs[i].state
  }

  /** Everything a synchronisation pass needs to converge: no dry-run, and every remote call succeeds. */
  ghost predicate Converging(server: Server, ctx: Context, reqs: map<string, CreateFindingRequest>,
                       s: map<string, State>, fs: seq<Finding>) {
    && ctx.setStateReply == server.setStateReply && !ctx.dryRun
    && WellKeyed(reqs) && (forall k | k in reqs :: reqs[k].finding.state == Active)
    && ListedFrom(s, fs)
    && (forall i | 0 <= i < |fs| :: server.setStateReply(fs[i].name).None?)
    && (forall k | k in reqs :: server.createReply(k).None?)
  }

  /** The stored states after the state changes and the creations of one synchronisation. */
  function Synchronised(server: Server, ctx: Context, reqs: map<string, CreateFindingRequest>,
                        s: map<string, State>, fs: seq<Finding>, unsynced: seq<CreateFindingRequest>): map<string, State> {
    server.Replay(server.Replay(s, Walk(ctx, reqs.Keys, fs).calls), CreateCalls(false, unsynced))
  }

  /** The names the unsynced requests create are keys of the requests. */
  lemma UnsyncedNames(reqs: map<string, CreateFindingRequest>, keys: set<string>, order: seq<string>,
                      unsynced: seq<CreateFindingRequest>)
    requires WellKeyed(reqs) && Lists(reqs, keys, order, unsynced)
    ensures forall j | 0 <= j < |unsynced| :: RequestName(unsynced[j]) == order[j] && order[j] in keys
  {
  }

  /** With every call succeeding, a requested finding ends up ACTIVE: changed, kept, or created. */
  lemma ConvergesRequested(server: Server, ctx: Context, reqs: map<string, CreateFindingRequest>,
                           s: map<string, State>, fs: seq<Finding>, order: seq<string>,
                           unsynced: seq<CreateFindingRequest>, k: string)
    requires Converging(server, ctx, reqs, s, fs)
    requires Lists(reqs, UnsyncedKeys(reqs, SyncedNames(Walk(ctx, reqs.Keys, fs).mapped)), order, unsynced)
    requires k in reqs
    ensures var t := Synchronised(server, ctx, reqs, s, fs, unsynced); k in t && t[k] == Active
  {
    var desired := reqs.Keys;
    var t1 := server.Replay(s, Walk(ctx, desired, fs).calls);
    var keys := UnsyncedKeys(reqs, SyncedNames(Walk(ctx, desired, fs).mapped));
    UnsyncedNames(reqs, keys, order, unsynced);
    WalkSyncedNames(ctx, desired, fs, k);
    if exists i | 0 <= i < |fs| :: fs[i].name == k {
      var i :| 0 <= i < |fs| && fs[i].name == k;
      assert Synced(ctx, desired, fs[i]);
      assert k !in keys;
      assert forall j | 0 <= j < |unsynced| :: RequestName(unsynced[j]) != k;
      CreatesUntouched(server, t1, unsynced, k);
      if Changed(ctx, desired, fs, k) {
        WalkStoreChanged(server, ctx, desired, s, fs, k);
      } else {
        assert Untouched(ctx, desired, fs, k);
        WalkStoreUntouched(server, ctx, desired, s, fs, k);
        assert !Mismatch(desired, fs[i]);
      }
    } else {
      assert !SyncedAmong(ctx, desired, fs, k);
      assert k in keys;
      var j :| 0 <= j < |order| && order[j] == k;
      assert forall j' | 0 <= j' < |unsynced| :: unsynced[j'].finding.state == Active;
      CreatesActive(server, t1, unsynced, k);
    }
  }

  /** With every call succeeding, a listed finding nobody requested ends up INACTIVE. */
  lemma ConvergesUnrequested(server: Server, ctx: Context, reqs: map<string, CreateFindingRequest>,
                             s: map<string, State>, fs: seq<Finding>, order: seq<string>,
                             unsynced: seq<CreateFindingRequest>, i: nat)
    requires Converging(server, ctx, reqs, s, fs)
    requires Lists(reqs, UnsyncedKeys(reqs, SyncedNames(Walk(ctx, reqs.Keys, fs).mapped)), order, unsynced)
    requires i < |fs| && fs[i].name !in reqs
    ensures var t := Synchronised(server, ctx, reqs, s, fs, unsynced);
      fs[i].name in t && t[fs[i].name] == Inactive
  {
    var desired := reqs.Keys;
    var name := fs[i].name;
    var t1 := server.Replay(s, Walk(ctx, desired, fs).calls);
    var keys := UnsyncedKeys(reqs, SyncedNames(Walk(ctx, desired, fs).mapped));
    UnsyncedNames(reqs, keys, order, unsynced);
    CreatesUntouched(server, t1, unsynced, name);
    if Changed(ctx, desired, fs, name) {
      WalkStoreChanged(server, ctx, desired, s, fs, name);
    } else {
      assert Untouched(ctx, desired, fs, name);
      WalkStoreUntouched(server, ctx, desired, s, fs, name);
      assert !Mismatch(desired, fs[i]);
    }
  }

  /** A name neither requested nor listed keeps its stored state. */
  lemma ConvergesOther(server: Server, ctx: Context, reqs: map<string, CreateFindingRequest>,
                       s: map<string, State>, fs: seq<Finding>, order: seq<string>,
                       unsynced: seq<CreateFindingRequest>, name: string)
    requires Converging(server, ctx, reqs, s, fs)
    requires Lists(reqs, UnsyncedKeys(reqs, SyncedNames(Walk(ctx, reqs.Keys, fs).mapped)), order, unsynced)
    requires name !in reqs && forall i | 0 <= i < |fs| :: fs[i].name != name
    ensures var t := Synchronised(server, ctx, reqs, s, fs, unsynced);
      (name in t <==> name in s) && (name in s ==> t[name] == s[name])
  {
    var desired := reqs.Keys;
    var t1 := server.Replay(s, Walk(ctx, desired, fs).calls);
    var keys := UnsyncedKeys(reqs, SyncedNames(Walk(ctx, desired, fs).mapped));
    UnsyncedNames(reqs, keys, order, unsynced);
    CreatesUntouched(server, t1, unsynced, name);
    WalkStoreUntouched(server, ctx, desired, s, fs, name);
  }

  /**
   * The listing of the program's synchronisation scenario: 1 ACTIVE and requested, 2 ACTIVE and
   * not requested, 3 INACTIVE and requested. Finding 2 is set INACTIVE and finding 3 ACTIVE;
   * finding 1 is left alone; all three come back mapped.
   */
  lemma ScenarioWalk(ctx: Context, desired: set<string>, f1: Finding, f2: Finding, f3: Finding)
    requires !ctx.dryRun && ctx.setStateReply(f2.name).None? && ctx.setStateReply(f3.name).None?
    requires f1.name in desired && f2.name !in desired && f3.name in desired
    requires f1.state == Active && f2.state == Active && f3.state == Inactive
    ensures var p := Walk(ctx, desired, [f1, f2, f3]);
      && p.calls == [Call.SetFindingState(SetFindingStateRequest(f2.name, Inactive, ctx.now)),
                     Call.SetFindingState(SetFindingStateRequest(f3.name, Active, ctx.now))]
      && p.errs == []
      && p.mapped == [f1, ListedFinding(f2.name, "", Inactive), ListedFinding(f3.name, "", Active)]
  {
    var set2 := Call.SetFindingState(SetFindingStateRequest(f2.name, Inactive, ctx.now));
    var set3 := Call.SetFindingState(SetFindingStateRequest(f3.name, Active, ctx.now));
    assert [f1][..0] == [];
    assert Walk(ctx, desired, [f1]) == Progress([f1], [], []);
    assert [f1, f2][..1] == [f1];
    assert Ensure(ctx, desired, f2) == Step(Some(ListedFinding(f2.name, "", Inactive)), None, Some(set2));
    assert Walk(ctx, desired, [f1, f2]) == Progress([f1, ListedFinding(f2.name, "", Inactive)], [], [set2]);
    assert [f1, f2, f3][..2] == [f1, f2];
    assert Ensure(ctx, desired, f3) == Step(Some(ListedFinding(f3.name, "", Active)), None, Some(set3));
  }

  /**
   * The program's synchronisation scenario: requests for findings 1, 3 and 4, and the listing
   * above. After the walk only the request for finding 4 is left to create.
   */
  lemma SyncScenario(ctx: Context, reqs: map<string, CreateFindingRequest>, f1: Finding, f2: Finding, f3: Finding,
                     n4: string)
    requires !ctx.dryRun && ctx.setStateReply(f2.name).None? && ctx.setStateReply(f3.name).None?
    requires f1.state == Active && f2.state == Active && f3.state == Inactive
    requires WellKeyed(reqs) && reqs.Keys == {f1.name, f3.name, n4} && f2.name != n4
    requires n4 != f1.name && n4 != f3.name && f2.name != f1.name && f2.name != f3.name
    ensures UnsyncedKeys(reqs, SyncedNames(Walk(ctx, reqs.Keys, [f1, f2, f3]).mapped)) == {n4}
  {
    ScenarioWalk(ctx, reqs.Keys, f1, f2, f3);
    var mapped := Walk(ctx, reqs.Keys, [f1, f2, f3]).mapped;
    assert SyncedNames(mapped) == {f1.name, f2.name, f3.name} by {
      assert mapped[0].name == f1.name && mapped[1].name == f2.name && mapped[2].name == f3.name;
    }
    UnsyncedAreMissing(reqs, SyncedNames(mapped));
  }
}
