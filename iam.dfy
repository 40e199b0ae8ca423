/**
 * The IAM policy edits of the sources command: add-iam-policy-binding and
 * remove-iam-policy-binding. Each reads the source's policy, edits its
 * bindings and writes the whole policy back through a client that is never
 * in dry-run.
 */
module IamBindings {
  import opened Wrappers
  import opened Errors
  import opened Api
  import opened Remote
  import SecurityCenter

  /** The members of a binding with every occurrence of member dropped, the others in order. */
  function WithoutMember(members: seq<string>, member: string): (r: seq<string>)
    ensures |r| <= |members|
    decreases |members|
  {
    if members == [] then []
    else
      var init := WithoutMember(members[..|members| - 1], member);
      if members[|members| - 1] == member then init else init + [members[|members| - 1]]
  }

  /** Every role's binding keeps its place; in the bindings of role the member is dropped. */
  function RemoveMember(bindings: seq<Binding>, role: string, member: string): (r: seq<Binding>)
    ensures |r| == |bindings|
  {
    seq(|bindings|, i requires 0 <= i < |bindings| =>
      if bindings[i].role == role then bindings[i].(members := WithoutMember(bindings[i].members, member))
      else bindings[i])
  }

  /** Some binding of the role lists the member. */
  predicate HasBinding(bindings: seq<Binding>, role: string, member: string) {
    exists i | 0 <= i < |bindings| :: bindings[i].role == role && member in bindings[i].members
  }

  /** The policy with one more binding, {role, [member]}, at the end. */
  function AddBinding(policy: Policy, role: string, member: string): (r: Policy)
    ensures |r.bindings| == |policy.bindings| + 1
    ensures r.bindings[..|policy.bindings|] == policy.bindings
    ensures r.bindings[|policy.bindings|] == Binding(role, [member])
    ensures r == policy.(bindings := r.bindings)
  {
    policy.(bindings := policy.bindings + [Binding(role, [member])])
  }

  /** What is left is exactly the other members, each as often as before, in their order. */
  lemma {:induction false} WithoutMemberKeepsOthers(members: seq<string>, member: string)
    ensures multiset(WithoutMember(members, member)) == multiset(members)[member := 0]
    ensures member !in members ==> WithoutMember(members, member) == members
    decreases |members|
  {
    if members != [] {
      var init := members[..|members| - 1];
      WithoutMemberKeepsOthers(init, member);
      assert members == init + [members[|members| - 1]];
      assert multiset(members) == multiset(init) + multiset{members[|members| - 1]};
    }
  }

  /** Bindings of other roles are untouched; no binding of the role lists the member afterwards. */
  lemma RemoveMemberEffect(bindings: seq<Binding>, role: string, member: string)
    ensures forall i | 0 <= i < |bindings| :: RemoveMember(bindings, role, member)[i].role == bindings[i].role
    ensures forall i | 0 <= i < |bindings| && bindings[i].role != role :: RemoveMember(bindings, role, member)[i] == bindings[i]
    ensures !HasBinding(RemoveMember(bindings, role, member), role, member)
    ensures !HasBinding(bindings, role, member) ==> RemoveMember(bindings, role, member) == bindings
  {
    forall i | 0 <= i < |bindings|
      ensures member !in WithoutMember(bindings[i].members, member)
      ensures member !in bindings[i].members ==> WithoutMember(bindings[i].members, member) == bindings[i].members
    {
      WithoutMemberKeepsOthers(bindings[i].members, member);
      assert multiset(WithoutMember(bindings[i].members, member))[member] == 0;
    }
  }

  /** Removing twice is removing once. */
  lemma RemoveMemberIdempotent(bindings: seq<Binding>, role: string, member: string)
    ensures RemoveMember(RemoveMember(bindings, role, member), role, member) == RemoveMember(bindings, role, member)
  {
    RemoveMemberEffect(bindings, role, member);
    RemoveMemberEffect(RemoveMember(bindings, role, member), role, member);
  }

  /**
   * Adding a binding and then removing the member finds it, and leaves the added binding in place
   * with no members; the bindings before it lose the member only where the role matches.
   */
  lemma AddThenRemove(policy: Policy, role: string, member: string)
    ensures HasBinding(AddBinding(policy, role, member).bindings, role, member)
    ensures var after := RemoveMember(AddBinding(policy, role, member).bindings, role, member);
      after == RemoveMember(policy.bindings, role, member) + [Binding(role, [])]
  {
    var added := AddBinding(policy, role, member).bindings;
    var n := |policy.bindings|;
    assert added[n].role == role && member in added[n].members;
    assert WithoutMember([member], member) == [] by {
      assert [member][..0] == [];
    }
    var after := RemoveMember(added, role, member);
    forall i | 0 <= i < n ensures after[i] == RemoveMember(policy.bindings, role, member)[i] {
      assert added[i] == policy.bindings[i];
    }
  }

  /** Adding the same binding twice keeps both: nothing is merged or deduplicated. */
  lemma AddTwiceKeepsBoth(policy: Policy, role: string, member: string)
    ensures var twice := AddBinding(AddBinding(policy, role, member), role, member);
      && |twice.bindings| == |policy.bindings| + 2
      && twice.bindings[|policy.bindings|] == twice.bindings[|policy.bindings| + 1] == Binding(role, [member])
  {
  }

  /** The nested loops of removeIAMPolicyBinding: rebuild the members of each binding of the role. */
  method RemoveMemberFromBindings(bindings: seq<Binding>, role: string, member: string)
    returns (updated: seq<Binding>, found: bool)
    ensures updated == RemoveMember(bindings, role, member)
    ensures found <==> HasBinding(bindings, role, member)
  {
    updated := bindings;
    found := false;
    for i := 0 to |bindings|
      invariant |updated| == |bindings|
      invariant forall k | 0 <= k < i :: updated[k] == RemoveMember(bindings, role, member)[k]
      invariant forall k | i <= k < |bindings| :: updated[k] == bindings[k]
      invariant found <==> HasBinding(bindings[..i], role, member)
    {
      var binding := bindings[i];
      if binding.role == role {
        var updatedMembers: seq<string> := [];
        ghost var foundHere := false;
        for j := 0 to |binding.members|
          invariant updatedMembers == WithoutMember(binding.members[..j], member)
          invariant foundHere ==> found
          invariant (found || foundHere) <==> HasBinding(bindings[..i], role, member) || member in binding.members[..j]
        {
          assert binding.members[..j + 1][..j] == binding.members[..j];
          if binding.members[j] == member {
            found := true;
            foundHere := true;
          } else {
            updatedMembers := updatedMembers + [binding.members[j]];
          }
        }
        assert binding.members[..|binding.members|] == binding.members;
        updated := updated[i := binding.(members := updatedMembers)];
      }
      assert HasBinding(bindings[..i + 1], role, member) <==>
        HasBinding(bindings[..i], role, member) || (binding.role == role && member in binding.members) by {
        assert forall k | 0 <= k < i :: bindings[..i + 1][k] == bindings[..i][k];
        assert bindings[..i + 1][i] == binding;
      }
    }
    assert bindings[..|bindings|] == bindings;
  }

  /** The error removeIAMPolicyBinding reports when no binding of the role lists the member. */
  function NotFoundError(sourceName: string, role: string, member: string): Error {
    Message("could not find IAM policy binding for source=<" + sourceName + "> role=<" + role + "> member=<" + member + ">")
  }

  /**
   * removeIAMPolicyBinding: a read error is returned before any edit; a member found in no binding
   * of the role is an error and nothing is written; otherwise the edited policy is written.
   */
  method RemoveIamPolicyBinding(server: Server, sourceName: string, member: string, role: string)
    returns (r: Result<Policy, Error>)
    modifies server`log
    ensures var get := Call.GetIamPolicy(sourceName, SecurityCenter.RequestedPolicyVersion);
      && (server.policyReply.Err? ==> r == Err(server.policyReply.error) && server.log == old(server.log) + [get])
      && (server.policyReply.Ok? && !HasBinding(server.policyReply.value.bindings, role, member) ==>
            r == Err(NotFoundError(sourceName, role, member)) && server.log == old(server.log) + [get])
      && (server.policyReply.Ok? && HasBinding(server.policyReply.value.bindings, role, member) ==>
            var edited := server.policyReply.value.(bindings := RemoveMember(server.policyReply.value.bindings, role, member));
            && server.log == old(server.log) + [get, Call.SetIamPolicy(sourceName, edited)]
            && r == server.setPolicyReply(edited))
  {
    var client := new SecurityCenter.Client(server, false);
    var policy := client.GetIamPolicy(sourceName);
    if policy.Err? {
      return Err(policy.error);
    }
    var bindings, foundBinding := RemoveMemberFromBindings(policy.value.bindings, role, member);
    if !foundBinding {
      return Err(NotFoundError(sourceName, role, member));
    }
    r := client.SetIamPolicy(sourceName, policy.value.(bindings := bindings));
  }

  /** addIAMPolicyBinding: a read error is returned and nothing is written; otherwise one binding is appended and the policy written. */
  method AddIamPolicyBinding(server: Server, sourceName: string, member: string, role: string)
    returns (r: Result<Policy, Error>)
    modifies server`log
    ensures var get := Call.GetIamPolicy(sourceName, SecurityCenter.RequestedPolicyVersion);
      && (server.policyReply.Err? ==> r == Err(server.policyReply.error) && server.log == old(server.log) + [get])
      && (server.policyReply.Ok? ==>
            var edited := AddBinding(server.policyReply.value, role, member);
            && server.log == old(server.log) + [get, Call.SetIamPolicy(sourceName, edited)]
            && r == server.setPolicyReply(edited))
  {
    var client := new SecurityCenter.Client(server, false);
    var policy := client.GetIamPolicy(sourceName);
    if policy.Err? {
      return Err(policy.error);
    }
    var edited := policy.value;
    edited := edited.(bindings := edited.bindings + [Binding(role, [member])]);
    r := client.SetIamPolicy(sourceName, edited);
  }
}
