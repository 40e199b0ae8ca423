/**
 * Building the create request for one violation: pkg/sync/request.go.
 * Pure: the clock reading and the SHA-256 hex digest are parameters.
 */
module FindingRequests {
  import opened Text
  import opened Api
  import opened Kube

  const ScannerName: string := "GATEKEEPER"

  /** The longest value, in runes, the "%.255s" verb lets through. */
  const MaxValueLength: nat := 255

  /** The resource-related values of a violation. */
  datatype Resource = Resource(
    name: string,
    namespace: string,
    gvk: GroupVersionKind,
    selfLink: string,
    uid: string,
    projectId: string,
    severity: string,
    statusSelfLink: string,
    message: string,
    specJson: string)

  /** The constraint-related values of a violation. */
  datatype Constraint = Constraint(
    name: string,
    selfLink: string,
    uid: string,
    kind: string,
    auditTime: Time,
    specJson: string,
    templateUid: string,
    templateSelfLink: string,
    templateSpecJson: string)

  // ---------------------------------------------------------------- severity

  /** getSCCSeverity: case-insensitive match on the four known labels. */
  function SccSeverity(text: string): Severity {
    match ToLower(text)
    case "low" => Low
    case "medium" => Medium
    case "high" => High
    case "critical" => Critical
    case _ => SeverityUnspecified
  }

  /** The label each known severity comes from, compared without regard to case. */
  lemma {:induction false} SccSeverityLabels(text: string)
    ensures SccSeverity(text) == Low <==> EqualFold(text, "low")
    ensures SccSeverity(text) == Medium <==> EqualFold(text, "medium")
    ensures SccSeverity(text) == High <==> EqualFold(text, "high")
    ensures SccSeverity(text) == Critical <==> EqualFold(text, "critical")
    ensures SccSeverity(text) == SeverityUnspecified <==>
      !EqualFold(text, "low") && !EqualFold(text, "medium") &&
      !EqualFold(text, "high") && !EqualFold(text, "critical")
  {
    assert ToLower("low") == "low";
    assert ToLower("medium") == "medium";
    assert ToLower("high") == "high";
    assert ToLower("critical") == "critical";
  }

  lemma SccSeverityExamples()
    ensures SccSeverity("") == SeverityUnspecified
    ensures SccSeverity("HiGh") == High
    ensures SccSeverity("CRITICAL") == Critical
    ensures SccSeverity("warning") == SeverityUnspecified
  {
    assert ToLower("HiGh") == "high";
    assert ToLower("CRITICAL") == "critical";
  }

  // ---------------------------------------------------------------- policy ID

  /** The message starts with what `^(P\d{4}):` matches: 'P', four ASCII digits and ':'. */
  predicate HasPolicyPrefix(message: string) {
    |message| >= 6 && message[0] == 'P' &&
    IsDigit(message[1]) && IsDigit(message[2]) && IsDigit(message[3]) && IsDigit(message[4]) &&
    message[5] == ':'
  }

  /** The policy ID and the remaining message, or "" and the whole message when there is no prefix. */
  function SplitPolicyId(message: string): (string, string) {
    if HasPolicyPrefix(message) then (message[..5], message[6..]) else ("", message)
  }

  /** Splitting loses nothing: the policy ID, a colon and the rest give back the message. */
  lemma SplitPolicyIdRoundTrip(message: string)
    ensures var (id, rest) := SplitPolicyId(message);
      if HasPolicyPrefix(message) then |id| == 5 && id + ":" + rest == message
      else id == "" && rest == message
  {
    if HasPolicyPrefix(message) {
      assert message == message[..5] + ":" + message[6..];
    }
  }

  // ---------------------------------------------------------------- identity

  /** What the finding ID hashes: six identity fields, concatenated without separators. */
  function IdentityInput(c: Constraint, r: Resource): string {
    c.uid + c.specJson + c.templateUid + c.templateSpecJson + r.uid + r.specJson
  }

  /**
   * What the model needs of hex.EncodeToString(sha256.Sum256(..)): 64 lower-case hex digits,
   * and the two digests pinned by the program's tests (first 32 digits).
   */
  ghost predicate IsHexSha256(hexSha256: string -> string) {
    (forall s :: |hexSha256(s)| == 64 && IsLowerHex(hexSha256(s))) &&
    hexSha256("")[..32] == "e3b0c44298fc1c149afbf4c8996fb924" &&
    hexSha256(FixtureIdentity)[..32] == "d0cbf936dbd346c0b7a772eac241cbbd"
  }

  /** The identity input of the program's test fixture. */
  const FixtureIdentity: string :=
    "constraintUID" + "constraintSpecJSON" + "constraintTemplateUID" + "constraintTemplateSpecJSON" +
    "resourceUID" + "resourceSpecJSON"

  /** determineFindingID: the first 32 hex digits of the SHA-256 of the identity input. */
  function FindingId(c: Constraint, r: Resource, hexSha256: string -> string): (id: string)
    requires IsHexSha256(hexSha256)
    ensures |id| == 32 && IsLowerHex(id)
  {
    hexSha256(IdentityInput(c, r))[..32]
  }

  /** Equal identity inputs give equal IDs, whatever the other fields hold. */
  lemma FindingIdDependsOnlyOnIdentity(c1: Constraint, r1: Resource, c2: Constraint, r2: Resource,
                                       hexSha256: string -> string)
    requires IsHexSha256(hexSha256)
    requires IdentityInput(c1, r1) == IdentityInput(c2, r2)
    ensures FindingId(c1, r1, hexSha256) == FindingId(c2, r2, hexSha256)
  {
  }

  /** The two digests of the program's tests. */
  lemma FindingIdKnownVectors(hexSha256: string -> string)
    requires IsHexSha256(hexSha256)
    ensures FindingId(EmptyConstraint, EmptyResource, hexSha256) == "e3b0c44298fc1c149afbf4c8996fb924"
    ensures FindingId(EmptyConstraint.(uid := "constraintUID", specJson := "constraintSpecJSON",
                                       templateUid := "constraintTemplateUID",
                                       templateSpecJson := "constraintTemplateSpecJSON"),
                      EmptyResource.(uid := "resourceUID", specJson := "resourceSpecJSON"),
                      hexSha256) == "d0cbf936dbd346c0b7a772eac241cbbd"
  {
    assert IdentityInput(EmptyConstraint, EmptyResource) == "";
    var c := EmptyConstraint.(uid := "constraintUID", specJson := "constraintSpecJSON",
                              templateUid := "constraintTemplateUID",
                              templateSpecJson := "constraintTemplateSpecJSON");
    var r := EmptyResource.(uid := "resourceUID", specJson := "resourceSpecJSON");
    assert IdentityInput(c, r) == FixtureIdentity;
  }

  /**
   * Without separators, two constraints with different UIDs can share an ID:
   * UID "ab" with spec "" and UID "a" with spec "b".
   */
  lemma FindingIdSeparatorCollision(hexSha256: string -> string)
    requires IsHexSha256(hexSha256)
    ensures EmptyConstraint.(uid := "ab").uid != EmptyConstraint.(uid := "a", specJson := "b").uid
    ensures FindingId(EmptyConstraint.(uid := "ab"), EmptyResource, hexSha256)
         == FindingId(EmptyConstraint.(uid := "a", specJson := "b"), EmptyResource, hexSha256)
  {
    assert IdentityInput(EmptyConstraint.(uid := "ab"), EmptyResource)
        == IdentityInput(EmptyConstraint.(uid := "a", specJson := "b"), EmptyResource);
  }

  const EmptyConstraint: Constraint := Constraint("", "", "", "", ZeroTime, "", "", "", "")
  const EmptyResource: Resource :=
    Resource("", "", GroupVersionKind("", "", ""), "", "", "", "", "", "", "")

  // ---------------------------------------------------------------- the request

  /** The request with the given policy ID and explanation already chosen. */
  function Assemble(host: string, source: string, cluster: string, c: Constraint, r: Resource,
                    now: Time, hexSha256: string -> string, policyId: string, explanation: string)
    : Api.CreateFindingRequest
    requires IsHexSha256(hexSha256)
  {
    var resourceSelfLink := Truncate(host + r.selfLink, MaxValueLength);
    var constraintSelfLink := Truncate(host + c.selfLink, MaxValueLength);
    var templateSelfLink := Truncate(host + c.templateSelfLink, MaxValueLength);
    var statusSelfLink := Truncate(r.statusSelfLink, MaxValueLength);
    var resourceName := if statusSelfLink == "" then resourceSelfLink else statusSelfLink;
    var eventTime := if c.auditTime.ZeroTime? then now else c.auditTime;
    Api.CreateFindingRequest(
      source,
      FindingId(c, r, hexSha256),
      Finding(
        "", "", Active, resourceName, c.kind, eventTime, constraintSelfLink, SccSeverity(r.severity),
        map[
          "ScannerName" := ScannerName,
          "Explanation" := explanation,
          "PolicyID" := policyId,
          "Cluster" := cluster,
          "ConstraintName" := c.name,
          "ConstraintSelfLink" := constraintSelfLink,
          "ConstraintUID" := c.uid,
          "ConstraintTemplateSelfLink" := templateSelfLink,
          "ConstraintTemplateUID" := c.templateUid,
          "ProjectId" := r.projectId,
          "ResourceName" := r.name,
          "ResourceNamespace" := r.namespace,
          "ResourceSelfLink" := resourceSelfLink,
          "ResourceStatusSelfLink" := statusSelfLink,
          "ResourceUID" := r.uid,
          "ResourceAPIGroup" := r.gvk.group,
          "ResourceAPIVersion" := r.gvk.version,
          "ResourceKind" := r.gvk.kind
        ]))
  }

  /** The outcome of a call that may panic. */
  datatype Outcome = Returned(request: Api.CreateFindingRequest) | Panicked(reason: string)

  /**
   * createFindingRequest as written: when the message starts with a policy ID,
   * reading matches[2] of a one-group match is out of range and the call panics.
   */
  function CreateFindingRequestAsWritten(host: string, source: string, cluster: string,
                                         c: Constraint, r: Resource, now: Time,
                                         hexSha256: string -> string): Outcome
    requires IsHexSha256(hexSha256)
  {
    if HasPolicyPrefix(r.message) then Panicked("index out of range [2] with length 2")
    else Returned(Assemble(host, source, cluster, c, r, now, hexSha256, "", Truncate(r.message, MaxValueLength)))
  }

  /** A message "P1234:..." makes the code as written panic. */
  lemma PolicyPrefixPanicsAsWritten(host: string, source: string, cluster: string, c: Constraint,
                                    now: Time, hexSha256: string -> string)
    requires IsHexSha256(hexSha256)
    ensures CreateFindingRequestAsWritten(host, source, cluster, c,
              EmptyResource.(message := "P1234: no labels"), now, hexSha256).Panicked?
  {
  }

  /** createFindingRequest with the policy ID split off the message as intended. */
  function BuildRequest(host: string, source: string, cluster: string,
                                c: Constraint, r: Resource, now: Time,
                                hexSha256: string -> string): CreateFindingRequest
    requires IsHexSha256(hexSha256)
  {
    var (policyId, rest) := SplitPolicyId(r.message);
    Assemble(host, source, cluster, c, r, now, hexSha256,
             Truncate(policyId, MaxValueLength), Truncate(rest, MaxValueLength))
  }

  /** Where the code as written does not panic, the corrected builder returns the same request. */
  lemma CreateFindingRequestAgreesWhenNoPolicyId(host: string, source: string, cluster: string,
                                                 c: Constraint, r: Resource, now: Time,
                                                 hexSha256: string -> string)
    requires IsHexSha256(hexSha256)
    ensures CreateFindingRequestAsWritten(host, source, cluster, c, r, now, hexSha256).Returned?
        <==> !HasPolicyPrefix(r.message)
    ensures !HasPolicyPrefix(r.message) ==>
      CreateFindingRequestAsWritten(host, source, cluster, c, r, now, hexSha256)
        == Returned(BuildRequest(host, source, cluster, c, r, now, hexSha256))
  {
  }

  /** The policy ID and explanation: split off the message, each capped at 255 runes. */
  lemma PolicyIdAndExplanation(host: string, source: string, cluster: string,
                               c: Constraint, r: Resource, now: Time, hexSha256: string -> string)
    requires IsHexSha256(hexSha256)
    ensures var props := BuildRequest(host, source, cluster, c, r, now, hexSha256).finding.sourceProperties;
      && "PolicyID" in props && "Explanation" in props
      && |props["Explanation"]| <= MaxValueLength
      && (HasPolicyPrefix(r.message) ==>
            props["PolicyID"] == r.message[..5] && props["Explanation"] == Truncate(r.message[6..], MaxValueLength))
      && (!HasPolicyPrefix(r.message) ==>
            props["PolicyID"] == "" && props["Explanation"] == Truncate(r.message, MaxValueLength))
  {
  }

  /**
   * The links: each is the host-prefixed Kubernetes link cut to 255 runes, the resource name
   * prefers the status link when it is non-empty, the external URI is the constraint link.
   */
  lemma RequestLinks(host: string, source: string, cluster: string,
                     c: Constraint, r: Resource, now: Time, hexSha256: string -> string)
    requires IsHexSha256(hexSha256)
    ensures var f := BuildRequest(host, source, cluster, c, r, now, hexSha256).finding;
      && f.externalUri <= host + c.selfLink
      && |f.externalUri| == Min(|host + c.selfLink|, MaxValueLength)
      && f.sourceProperties["ConstraintSelfLink"] == f.externalUri
      && f.sourceProperties["ConstraintTemplateSelfLink"] <= host + c.templateSelfLink
      && |f.sourceProperties["ConstraintTemplateSelfLink"]| == Min(|host + c.templateSelfLink|, MaxValueLength)
      && f.sourceProperties["ResourceSelfLink"] <= host + r.selfLink
      && |f.sourceProperties["ResourceSelfLink"]| == Min(|host + r.selfLink|, MaxValueLength)
      && f.sourceProperties["ResourceStatusSelfLink"] <= r.statusSelfLink
      && |f.sourceProperties["ResourceStatusSelfLink"]| == Min(|r.statusSelfLink|, MaxValueLength)
      && |f.resourceName| <= MaxValueLength
      && (r.statusSelfLink != "" ==> f.resourceName == f.sourceProperties["ResourceStatusSelfLink"])
      && (r.statusSelfLink == "" ==> f.resourceName == f.sourceProperties["ResourceSelfLink"])
  {
    var statusLink := Truncate(r.statusSelfLink, MaxValueLength);
    if r.statusSelfLink != "" {
      TruncateEmptyIff(r.statusSelfLink, MaxValueLength);
    }
  }

  /**
   * The fixed parts of the request: parent is the source, the ID is the identity digest, the
   * finding is ACTIVE with the constraint kind as category, the severity label mapped, the audit
   * time as event time unless it is unset, and exactly the eighteen source property keys.
   */
  lemma RequestFixedFields(host: string, source: string, cluster: string,
                           c: Constraint, r: Resource, now: Time, hexSha256: string -> string)
    requires IsHexSha256(hexSha256)
    ensures var req := BuildRequest(host, source, cluster, c, r, now, hexSha256);
      && req.parent == source
      && req.findingId == FindingId(c, r, hexSha256)
      && req.finding.state == Active
      && req.finding.category == c.kind
      && req.finding.severity == SccSeverity(r.severity)
      && (c.auditTime.ZeroTime? ==> req.finding.eventTime == now)
      && (!c.auditTime.ZeroTime? ==> req.finding.eventTime == c.auditTime)
      && req.finding.sourceProperties.Keys == PropertyKeys
  {
  }

  /** The eighteen source property keys. */
  const PropertyKeys: set<string> := {
    "ScannerName", "Explanation", "PolicyID", "Cluster", "ConstraintName", "ConstraintSelfLink",
    "ConstraintUID", "ConstraintTemplateSelfLink", "ConstraintTemplateUID", "ProjectId",
    "ResourceName", "ResourceNamespace", "ResourceSelfLink", "ResourceStatusSelfLink",
    "ResourceUID", "ResourceAPIGroup", "ResourceAPIVersion", "ResourceKind"}

  /**
   * The values copied as they are: scanner name, cluster, names, UIDs, project and the
   * group-version-kind, none of them cut to 255 runes.
   */
  lemma RequestCopiedProperties(host: string, source: string, cluster: string,
                                c: Constraint, r: Resource, now: Time, hexSha256: string -> string)
    requires IsHexSha256(hexSha256)
    ensures var p := BuildRequest(host, source, cluster, c, r, now, hexSha256).finding.sourceProperties;
      && p["ScannerName"] == ScannerName
      && p["Cluster"] == cluster
      && p["ConstraintName"] == c.name
      && p["ConstraintUID"] == c.uid
      && p["ConstraintTemplateUID"] == c.templateUid
      && p["ProjectId"] == r.projectId
      && p["ResourceName"] == r.name
      && p["ResourceNamespace"] == r.namespace
      && p["ResourceUID"] == r.uid
      && p["ResourceAPIGroup"] == r.gvk.group
      && p["ResourceAPIVersion"] == r.gvk.version
      && p["ResourceKind"] == r.gvk.kind
  {
  }
}
