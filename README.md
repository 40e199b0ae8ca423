# gatekeeper-securitycenter, modelled in Dafny

gatekeeper-securitycenter copies the audit violations of Gatekeeper (the
Open Policy Agent admission controller for Kubernetes) into Security Command
Center (SCC), Google Cloud's security findings service. Each pass of its
controller does four things:

- It discovers the constraint types of the cluster and lists the constraints that have violations.
- It looks up the resource behind each violation.
- It builds one create-finding request per violating resource, keyed by a finding ID that does not change between passes.
- It brings SCC in line with those requests:
  - a listed finding with no request is set INACTIVE;
  - a listed finding with a request is set ACTIVE;
  - a request whose finding was not listed is created.

The `sources` sub-commands create and list SCC sources and edit a source's IAM
policy. The `cmd/flag` package validates the command-line flags.

The model is a set of Dafny modules, one per package of the program:

| module | file | models |
|---|---|---|
| `FindingRequests` | request.dfy | `pkg/sync/request.go`: the finding request, its ID, its severity |
| `Reconcile` | reconcile.dfy | `pkg/securitycenter/findings.go` as functions: which state changes, creations and errors one synchronisation produces |
| `SecurityCenter` | securitycenter.dfy | `pkg/securitycenter`: the client class, whose methods are proved to do what `Reconcile` says |
| `Dynamic` | dynamic.dfy | `pkg/dynamic`: violated constraints, resource lookup by kind, template lookup |
| `Discovery` | discovery.dfy | `pkg/discovery`: the constraint category and the kind-to-resource map |
| `Sync` | sync.dfy | `pkg/sync/sync.go`: one pass, from the cluster's objects to the SCC requests |
| `IamBindings` | iam.dfy | `cmd/sources/{add,remove}-iam-policy-binding.go` |
| `CommandFlags` | flags.dfy | `cmd/flag`: each flag's validation and the validation chain |
| `Remote` | remote.dfy | the SCC service as the client sees it |
| `Kube` | kube.dfy | the Kubernetes values and client answers the program reads |
| `Api`, `Errors`, `Text`, `Wrappers` | | SCC messages, Go errors, Go string helpers, Option/Result |

The world outside the program is made of parameters, not of code.

- **SCC** is `Remote.Server`, a class with two fields. `store` maps a finding name to its state. `log` holds every request received, in order. The server's replies are fixed when it is built. Each is a function of the finding name or of the request sent, and a successful state change answers with a finding of the name it was asked to change. The properties hold for every such choice of replies.
- **The Kubernetes clients** are `Kube.Cluster`, a datatype whose fields are the answers the clients give.
- **Side values** are in `Sync.Env`: the clock, the SHA-256 hex digest, JSON encoding and RFC 3339 parsing. So is `strconv.ParseFloat`, which `CommandFlags` receives as a parameter.

Each of these parameters is constrained only by what the program's tests pin down. For example, `FindingRequests.IsHexSha256` fixes the two digests of `request_test.go`.

Where the program changes state step by step, the model does too, and each such method is proved against a function:

- `SecurityCenter.Client` keeps its timeout and page size as fields, and its loops carry invariants.
- `MapFindings` is proved equal to `Reconcile.Walk`.
- `CreateFindings` is proved equal to `Reconcile.CreateCalls` and `Reconcile.CreateErrors`.
- `SyncFindings` is proved to leave the server in the state `SyncEffect` describes.

Where Go ranges over a map, the model chooses each next key with `:|`. A ghost out-parameter records the order it took, and the contract holds for every order.

## Model

| member | source | states |
|---|---|---|
| FindingRequests.SccSeverityLabels | pkg/sync/request.go:150-163 | each SCC severity comes exactly from its label compared without case; every other label gives SEVERITY_UNSPECIFIED |
| FindingRequests.SccSeverityExamples | pkg/sync/request.go:150-163 | "", "HiGh", "CRITICAL" and "warning" map to UNSPECIFIED, HIGH, CRITICAL and UNSPECIFIED |
| FindingRequests.SplitPolicyIdRoundTrip | pkg/sync/request.go:34 | a message matching `^(P\d{4}):` splits into a 5-rune policy ID and a rest, and ID + ":" + rest is the message; any other message keeps an empty ID |
| FindingRequests.FindingId | pkg/sync/request.go:145-148 | the finding ID is 32 lower-case hex digits |
| FindingRequests.FindingIdDependsOnlyOnIdentity | pkg/sync/request.go:145-148 | two violations whose six identity fields concatenate to the same text get the same ID, whatever their other fields hold |
| FindingRequests.FindingIdKnownVectors | pkg/sync/request_test.go:181-200 | the all-empty inputs give e3b0c442…fb924 and the fixture's inputs give d0cbf936…cbbd |
| FindingRequests.FindingIdSeparatorCollision | pkg/sync/request.go:146 | because the fields are concatenated without separators, constraints with different UIDs ("ab"/"" and "a"/"b") share a finding ID |
| FindingRequests.PolicyPrefixPanicsAsWritten | pkg/sync/request.go:78-82 | as written, a message starting "P1234:" makes the request builder read `matches[2]` out of range |
| FindingRequests.CreateFindingRequestAgreesWhenNoPolicyId | pkg/sync/request.go:64-131 | the code as written returns a request exactly when the message has no policy prefix, and then it returns the corrected builder's request |
| FindingRequests.PolicyIdAndExplanation | pkg/sync/request.go:74-82 | PolicyID is the matched ID and Explanation the rest of the message, or "" and the whole message without a match; the explanation is at most 255 runes |
| FindingRequests.RequestLinks | pkg/sync/request.go:65-89 | every self link is the host-prefixed link cut to its first 255 runes; the resource name is the status self link when that is non-empty and the resource self link otherwise; the external URI is the constraint link |
| FindingRequests.RequestFixedFields | pkg/sync/request.go:90-107 | the parent is the source and the ID the identity digest; the finding is ACTIVE with the constraint kind as category and the mapped severity; the event time is the audit time unless that is unset, then now; there are exactly eighteen property keys |
| FindingRequests.RequestCopiedProperties | pkg/sync/request.go:108-128 | scanner name, cluster, constraint and resource names, UIDs, project and group/version/kind are copied unchanged |
| Text.Truncate | pkg/sync/request.go:66-76 | `%.255s` keeps a prefix of the string whose length is the smaller of its length and 255 |
| Text.TruncateEmptyIff | pkg/sync/request.go:86-89 | with a positive limit, a cut string is empty exactly when the original is, so the status-link fallback sees the same emptiness |
| Text.Utf8LenBounds | cmd/flag/description.go:37 | Go's `len` counts 1 to 4 bytes per rune, and exactly one per rune for ASCII |
| Text.NatToString | cmd/flag/interval.go:37 | the `%v` of a number in a message is a non-empty string of digits |
| Text.NatToStringDecimal | cmd/flag/interval.go:37 | the `%v` of a number is its decimal rendering: the digits denote the number, with no leading zero |
| Errors.NewAggregate | pkg/securitycenter/findings.go:52 | an empty error list gives no error; a non-empty one gives an aggregate of exactly those errors |
| Reconcile.WalkCallsDryRun | pkg/securitycenter/findings.go:218-221 | in dry-run, mapping the listed findings sends no state change |
| Reconcile.WalkCallsCorrect | pkg/securitycenter/findings.go:200-212 | each state change sent sets a listed finding that is in the wrong state to the state it should have, stamped with the pass's one clock reading (see Left out); at most one is sent per listed finding |
| Reconcile.WalkCallsCover | pkg/securitycenter/findings.go:200-212 | outside dry-run, every listed finding in the wrong state gets its state change sent |
| Reconcile.WalkSyncedNames | pkg/securitycenter/findings.go:99-102 | a name is recorded as synced exactly when a finding of that name was listed and its state was already right, the pass is a dry run, or its change succeeded |
| Reconcile.WalkErrorsEmpty | pkg/securitycenter/findings.go:163-171 | mapping reports no error exactly when every listed finding counts as synced |
| Reconcile.WalkErrorsFromReplies | pkg/securitycenter/findings.go:163-166 | every mapping error is the service's reply to a state change that was sent for a listed finding and failed |
| Reconcile.WalkStoreChanged | pkg/securitycenter/findings.go:217-236 | a listed finding whose change succeeded is stored with the state it should have |
| Reconcile.WalkStoreUntouched | pkg/securitycenter/findings.go:207-210 | a name with no state change sent keeps what the store held |
| Reconcile.WalkStoreKeeps | pkg/securitycenter/findings.go:217-236 | state changes never remove a stored finding |
| Reconcile.UnsyncedAreMissing | pkg/securitycenter/findings.go:116-126 | with requests keyed by their finding names, the unsynced requests are exactly those whose name was not synced |
| Reconcile.CreateErrorsAreFailedReplies | pkg/securitycenter/findings.go:46-51 | the errors collected while creating are the service's errors for exactly the requests whose create failed for good (outside dry-run, not AlreadyExists), one each, in request order |
| Reconcile.PageErrorAborts | pkg/securitycenter/findings.go:86-89 | a listing failure always stops the synchronisation; errors from state changes never do |
| Reconcile.CreatesUntouched | pkg/securitycenter/findings.go:46-51 | creating findings leaves every other name as it was |
| Reconcile.CreatesActive | pkg/securitycenter/findings.go:46-51 | a finding created successfully is stored ACTIVE, whatever is created after it |
| Reconcile.ConvergesRequested | pkg/securitycenter/findings.go:55-68 | when every call succeeds outside dry-run, every requested finding ends ACTIVE, whether it was kept, changed or created |
| Reconcile.ConvergesUnrequested | pkg/securitycenter/findings.go:58-59 | when every call succeeds, every listed finding without a request ends INACTIVE |
| Reconcile.ConvergesOther | pkg/securitycenter/findings.go:55-68 | a name neither requested nor listed keeps its stored state |
| Reconcile.ScenarioWalk | pkg/securitycenter/findings_test.go:50-137 | for the test's listing, finding 2 is set INACTIVE and finding 3 ACTIVE; finding 1 is left alone; there are no errors |
| Reconcile.SyncScenario | pkg/securitycenter/findings_test.go:139-151 | after that listing, only the request for finding 4 is left to create |
| SecurityCenter.FindSourceFirstMatch | pkg/securitycenter/sources.go:50-61 | the lookup returns the name of the first source whose display name matches without case |
| SecurityCenter.FindSourceNoMatch | pkg/securitycenter/sources.go:50-62 | with no matching source, the lookup returns "" or the listing's error, wrapped |
| SecurityCenter.Client.constructor | pkg/securitycenter/securitycenter.go:74-80 | a new client has the 60-second timeout, page size 1000 and the dry-run flag |
| SecurityCenter.Client.SetTimeout | pkg/securitycenter/securitycenter.go:84-90 | only a positive duration is accepted and stored; otherwise the timeout is unchanged |
| SecurityCenter.Client.SetPageSize | pkg/securitycenter/securitycenter.go:93-99 | only 1 to 1000 is accepted and stored; otherwise the page size is unchanged |
| SecurityCenter.Client.SetFindingState | pkg/securitycenter/findings.go:217-236 | in dry-run the finding comes back unchanged and nothing is sent; otherwise exactly one state change is sent and its reply returned |
| SecurityCenter.Client.EnsureFindingState | pkg/securitycenter/findings.go:200-212 | nothing is sent when the finding already has the wanted state; otherwise the state change is |
| SecurityCenter.Client.MapFinding | pkg/securitycenter/findings.go:163-169 | one finding's mapped result and error are appended, and the server sees that finding's state change |
| SecurityCenter.Client.MapFindings | pkg/securitycenter/findings.go:155-170 | the loop's mapped findings, errors, sent requests and resulting store are those of `Reconcile.Walk` |
| SecurityCenter.Client.MapFindingsPage | pkg/securitycenter/findings.go:142-172 | one ListFindings request with the page size and token, then the walk; the error is the iterator aggregate when the listing fails, else the aggregate of the mapping errors |
| SecurityCenter.Client.CollectSyncedNames | pkg/securitycenter/findings.go:99-102 | the synced set holds exactly the names of the mapped findings |
| SecurityCenter.Client.FilterUnsyncedFindingRequests | pkg/securitycenter/findings.go:116-126 | the result lists each request whose finding name was not synced, once, in some map order, and nothing else; independently of that order, every returned request is an unsynced one of the map and every unsynced one is returned |
| SecurityCenter.Client.SyncFindingsState | pkg/securitycenter/findings.go:71-112 | a failing listing returns its error and no requests; otherwise the unsynced requests come back, with the state-change errors wrapped as "findings state sync errors" |
| SecurityCenter.Client.CreateFinding | pkg/securitycenter/findings.go:176-194 | in dry-run nothing is sent; otherwise one create is sent, and AlreadyExists counts as success |
| SecurityCenter.Client.CreateFindings | pkg/securitycenter/findings.go:46-51 | one create per unsynced request, in order; the errors collected are `Reconcile.CreateErrors` |
| SecurityCenter.Client.SyncFindings | pkg/securitycenter/findings.go:37-53 | the server sees a listing, the walk's state changes, then a create for each unsynced request. The error is the listing's when the listing fails. It is the state-sync error when no request is left to create. Otherwise it is the aggregate of the create errors |
| SecurityCenter.Client.GetSourceNameForDisplayName | pkg/securitycenter/sources.go:43-63 | one ListSources request for the organisation; the name of the first source matching without case, "" when none does, or the wrapped listing error |
| SecurityCenter.Client.ListSources | pkg/securitycenter/sources.go:67-87 | every listed source in order, or the wrapped listing error |
| SecurityCenter.Client.CreateSource | pkg/securitycenter/sources.go:92-115 | the lookup error is returned. An existing display name is refused with the program's message. In dry-run the new source comes back unsent. Otherwise the create request is sent |
| SecurityCenter.Client.GetIamPolicy | pkg/securitycenter/sources.go:123-133 | asks for policy version 3 of the source and returns the reply |
| SecurityCenter.Client.SetIamPolicy | pkg/securitycenter/sources.go:141-153 | in dry-run the policy comes back unsent; otherwise it is sent and the service's answer to that policy (the stored policy or an error) is returned |
| Dynamic.IndexKeepsLastViolated | pkg/dynamic/dynamic.go:78-82 | a UID is in the result exactly when some listed object with that UID has violations, and it holds the last such object |
| Dynamic.ViolatedConstraintsSound | pkg/dynamic/dynamic.go:69-86 | every entry is a listed constraint with violations, stored under its own UID |
| Dynamic.ListAllStopsAtError | pkg/dynamic/dynamic.go:72-77 | the first listing that fails ends the call with its error |
| Dynamic.ListAllErrorSticks | pkg/dynamic/dynamic.go:72-77 | once a listing fails, later group resources change nothing |
| Dynamic.TemplateName | pkg/dynamic/dynamic.go:108 | the template name is the kind lower-cased: same length, lower case, equal without case |
| Dynamic.LookupAsWrittenNeedsAll | pkg/dynamic/dynamic.go:94-99 | as written, the loop yields a resource only when every mapping's lookup succeeds, and then it yields the last one |
| Dynamic.FirstFoundIsFirst | pkg/dynamic/dynamic.go:88-104 | the corrected lookup returns the first mapping whose lookup succeeds, and nothing when none does |
| Dynamic.LookupAsWrittenMissesFoundResource | pkg/dynamic/dynamic.go:94-103 | with two mappings where only the first finds the object, the code as written reports it missing and the corrected lookup finds it |
| Dynamic.Client.constructor | pkg/dynamic/dynamic.go:60-64 | a new client has the 60-second timeout |
| Dynamic.Client.SetTimeout | pkg/dynamic/dynamic.go:131-137 | only a positive duration is accepted and stored |
| Dynamic.Client.GetViolatedConstraints | pkg/dynamic/dynamic.go:69-86 | the loop returns `ViolatedConstraints`: the first listing error, or the violated constraints by UID |
| Dynamic.Client.GetResourceByKindAsWritten | pkg/dynamic/dynamic.go:90-104 | the loop as written returns `LookupAsWritten`'s resource, or the not-found error |
| Dynamic.Client.GetResourceByKind | pkg/dynamic/dynamic.go:90-104 | the corrected loop returns the first mapping's resource that is found, or the not-found error |
| Dynamic.Client.GetConstraintTemplate | pkg/dynamic/dynamic.go:107-111 | fetches the cluster-scoped constrainttemplates object named after the lower-cased kind |
| Discovery.AddResourcesAppends | pkg/discovery/discovery.go:84-94 | a version's resources are appended after what the kind already had, in order, with subresources skipped |
| Discovery.DuplicatesKept | pkg/discovery/discovery.go:92 | a resource listed twice is recorded twice |
| Discovery.AddResourcesMembers | pkg/discovery/discovery.go:84-94 | a GVR is recorded for a kind exactly when it was already, or the version serves a non-subresource of that kind and name |
| Discovery.AddVersionsMembers | pkg/discovery/discovery.go:83-95 | the same across the versions of a group, whatever the map order |
| Discovery.AddGroupsMembers | pkg/discovery/discovery.go:81-96 | the same across the groups |
| Discovery.KindMapServes | pkg/discovery/discovery.go:74-103 | in the finished map, a GVR is listed for a kind exactly when some group serves it as a non-subresource of that kind |
| Discovery.Client.constructor | pkg/discovery/discovery.go:49-53 | a new client has the 60-second timeout |
| Discovery.Client.SetTimeout | pkg/discovery/discovery.go:106-112 | a negative duration is refused; zero and positive ones are stored |
| Discovery.Client.GetConstraintGroupResources | pkg/discovery/discovery.go:57-65 | the group resources of the "constraint" category; an unknown category is not an error |
| Discovery.Client.CreateKindToGVRMap | pkg/discovery/discovery.go:74-103 | the discovery error, or the map built by visiting every group and each group's versions in some map order |
| Discovery.AddGroup | pkg/discovery/discovery.go:83-95 | one group's versions are each visited once, and the map grows as `AddVersions` says; whatever the order, a kind's entries afterwards are its old ones plus exactly the non-subresource entries of that kind which the group serves |
| Sync.GetSpecAsJson | pkg/sync/sync.go:252-266 | no spec is an error; a map spec gives its JSON encoding; a non-map spec is an error |
| Sync.ConstraintOfForgiving | pkg/sync/sync.go:138-181 | reading a constraint never fails: a missing template leaves the template fields empty, a bad spec leaves the spec empty, an unparsable audit time becomes now |
| Sync.ViolationDictsMembers | pkg/sync/sync.go:203-210 | a violation is kept exactly when it is a map; other entries are skipped |
| Sync.ResourceOf | pkg/sync/sync.go:215-249 | reading a resource fails exactly when its lookup does, with that error; otherwise it carries the violation's name and the object's UID |
| Sync.ResourcesMembers | pkg/sync/sync.go:183-195 | a resource is kept exactly when it comes from a violation whose lookup succeeds |
| Sync.ConstraintRequestsForSource | pkg/sync/request.go:98-102 | every request built names the pass's source as parent and asks for an ACTIVE finding |
| Sync.RequestsWellFormed | pkg/sync/sync.go:118-127 | every request of a pass names the source, asks for ACTIVE and is stored under its own finding name |
| Sync.InsertMembers | pkg/sync/sync.go:124-125 | a name is recorded exactly when it was before or names one of the requests |
| Sync.RequestsComplete | pkg/sync/sync.go:118-127 | every violating resource whose lookup succeeds has its request's finding name recorded |
| Sync.Client.constructor | pkg/sync/sync.go:88-97 | a new client holds its three clients, the host, the source and the cluster name |
| Sync.Client.GetConstraint | pkg/sync/sync.go:141-181 | the constraint's fields, with its template's fields when the template is found |
| Sync.Client.GetResource | pkg/sync/sync.go:215-249 | looks the violation's resource up by kind, name and namespace and reads what the finding needs |
| Sync.Client.GetViolatingResources | pkg/sync/sync.go:183-195 | the resources of the violations in order, skipping those not found |
| Sync.Client.AddConstraintRequests | pkg/sync/sync.go:119-126 | one constraint's requests are recorded over the requests before it |
| Sync.Client.InsertBatch | pkg/sync/sync.go:122-126 | each request is recorded under its finding name, a later one replacing an earlier one |
| Sync.Client.BuildFindingRequests | pkg/sync/sync.go:118-127 | visiting the violated constraints once each, in some map order, gives `RequestsOver` of that order; whatever the order, every request is keyed by its finding name, is parented by the source and asks for an ACTIVE finding, and every violating resource of every violated constraint has its request |
| Sync.Client.Sync | pkg/sync/sync.go:100-136 | listing and discovery errors end the pass with nothing sent. In dry-run nothing is sent. Otherwise the requests go to SyncFindings, and its error is wrapped as "could not sync findings" |
| Sync.GetViolationsForConstraint | pkg/sync/sync.go:197-212 | the map entries of status.violations in order, none when the list is absent |
| IamBindings.WithoutMemberKeepsOthers | cmd/sources/remove-iam-policy-binding.go:74-82 | removing a member keeps every other member as often as before, and changes nothing when the member is absent |
| IamBindings.RemoveMemberEffect | cmd/sources/remove-iam-policy-binding.go:71-84 | the bindings of other roles are untouched; no binding of the role lists the member afterwards |
| IamBindings.RemoveMemberIdempotent | cmd/sources/remove-iam-policy-binding.go:71-84 | removing twice is removing once |
| IamBindings.AddBinding | cmd/sources/add-iam-policy-binding.go:71-74 | exactly one binding {role, [member]} is appended; the bindings before it and the policy's other fields are unchanged |
| IamBindings.AddTwiceKeepsBoth | cmd/sources/add-iam-policy-binding.go:71-74 | adding the same binding twice gives two bindings: nothing is merged or deduplicated |
| IamBindings.AddThenRemove | cmd/sources/add-iam-policy-binding.go:71-74 | after adding, a binding of the role lists the member; removing it then leaves the policy's bindings without it |
| IamBindings.RemoveMemberFromBindings | cmd/sources/remove-iam-policy-binding.go:71-84 | the nested loops compute `RemoveMember`, and report found exactly when some binding of the role listed the member |
| IamBindings.RemoveIamPolicyBinding | cmd/sources/remove-iam-policy-binding.go:60-89 | a read error is returned; a member in no binding of the role is an error and nothing is written; otherwise the edited policy is written and the service's answer to it returned |
| IamBindings.AddIamPolicyBinding | cmd/sources/add-iam-policy-binding.go:59-76 | a read error is returned and nothing is written; otherwise one binding is appended, the policy is written and the service's answer to it returned |
| CommandFlags.MemberVerdictMeansPrefix | cmd/flag/member.go:49-59 | a member is accepted exactly when it starts with one of the six prefixes, or is a deleted member of one carrying `?uid=<digits>` at the end |
| CommandFlags.MemberAcceptsActive | cmd/flag/member_test.go:32 | "user:foo@example.com" is accepted |
| CommandFlags.MemberAcceptsAnyTail | cmd/flag/member_test.go:55 | a member starting with any allowed prefix is accepted whatever follows; the test's principalSet value with a `?uid=` tail is one case |
| CommandFlags.MemberAcceptsDeletedWithUid | cmd/flag/member_test.go:35 | a deleted user with its uid is accepted |
| CommandFlags.MemberRejectsDeletedWithoutUid | cmd/flag/member_test.go:34 | a deleted user without a uid is refused |
| CommandFlags.MemberRejectsDeletedWithoutKind | cmd/flag/member_test.go:33 | "deleted:" with a uid but no member kind is refused |
| CommandFlags.MemberRejectsBare | cmd/flag/member_test.go:28-31 | the empty value and an e-mail address without a kind are refused |
| CommandFlags.MemberValidIff | cmd/flag/member.go:49-59 | the member flag passes exactly when a prefix matches |
| CommandFlags.ServiceAccountDomainAccepted | cmd/flag/impersonate-service-account.go:40-51 | any address ending in ".gserviceaccount.com" is accepted, whatever comes before the domain and whatever ParseFloat answers |
| CommandFlags.OrganizationUnanchored | cmd/flag/organization.go:35-44 | the pattern is unanchored: an accepted organisation ID stays accepted with any text before and after it |
| CommandFlags.SourceUnanchored | cmd/flag/source.go:35-44 | the pattern is unanchored: an accepted source name stays accepted with any text before and after it |
| CommandFlags.RoleUnanchored | cmd/flag/role.go:35-40 | the check is a substring test: an accepted role stays accepted with any text before and after it |
| CommandFlags.DescriptionBytesNotRunes | cmd/flag/description.go:36-41 | the bound counts bytes, not characters: a description made of two-byte characters is refused exactly when it has more than 512 of them |
| CommandFlags.DisplayNameBytesNotRunes | cmd/flag/display-name.go:36-41 | the bound counts bytes: a display name of two-byte characters passes exactly when it has 1 to 32 of them |
| CommandFlags.IntervalBounds | cmd/flag/interval.go:35-40 | both bounds 5 and 1000 are accepted, 4 and 1001 refused; the refusal names `findings-limit`, not the interval flag |
| CommandFlags.SourceLimitBounds | cmd/flag/source-limit.go:36-41 | both bounds 1 and 1000 are accepted; 0 and 1001 get the same refusal, which does not quote the value |
| CommandFlags.LengthsAreBytes | cmd/flag/display-name.go:36-41 | 33 two-byte runes exceed the 64-byte display-name bound; the empty display name is refused, the empty description accepted |
| CommandFlags.ServiceAccountAccepted | cmd/flag/impersonate-service-account_test.go:27-46 | the empty value, a service-account e-mail and a numeric unique ID are accepted |
| CommandFlags.ServiceAccountRejected | cmd/flag/impersonate-service-account_test.go:37-51 | a gmail address and "abcde12345" are refused |
| CommandFlags.OrganizationExamples | cmd/flag/organization.go:35-44 | "abc1" is accepted because the pattern is unanchored; "abc", with no digit, is refused |
| CommandFlags.SourceAndRoleExamples | cmd/flag/source.go:35-44 | a full source name is accepted and the empty one refused; a custom role path containing "roles/" is accepted and the empty role refused |
| CommandFlags.SourceRejectsPlaceholder | cmd/flag/source.go:35-44 | `organizations/1/sources/-` is refused: a digit must follow "/sources/" |
| CommandFlags.DefaultsValid | cmd/flag/description.go:23 | the default description, display name, interval and source limit pass their own checks |
| CommandFlags.ChainFirstError | cmd/flag/flag.go:50-62 | validation reports an error exactly when some flag fails with something other than SkipValidation and all flags before it passed; it succeeds when all pass or SkipValidation comes first |
| CommandFlags.OwnFlagsPassIff | cmd/flag/flag.go:50-62 | none of the package's own flags answers SkipValidation, so with only those, validation passes exactly when every flag passes |
| CommandFlags.Flags.constructor | cmd/flag/flag.go:31-35 | the flags are kept in the order given |
| CommandFlags.Flags.AddToFlagSet | cmd/flag/flag.go:43-47 | every flag registers its name and default, in order, after what the flag set held |
| CommandFlags.Flags.Validate | cmd/flag/flag.go:50-62 | the loop returns `Chain` of the flags' verdicts |

## Left out

- Transport: the gRPC and HTTP transports, client construction (`NewClient` beyond its defaults), contexts, deadlines and `Close` are not modelled. A call either answers or fails, as the oracle says.
- Logging: every log call is left out, and so are the verbose-only loops that only log.
- The controller: the loop of `cmd/findings` that calls Sync every interval, its sleeping and its signal handling, is not modelled. Neither is the CLI wiring of the sub-commands (cobra) or the JSON printing of their results.
- Dry-run printing: the JSON printing of the requests in dry-run (sync.go:129-130, printFindingRequests) is not modelled.
- Sync.Client.Sync: in dry-run the result is stated as no error, because the printing's error is not modelled.
- Sync.Client.Sync: the pass is built from the corrected request builder (`FindingRequests.BuildRequest`) and the corrected lookup (`Dynamic.ResourceByKind` over `Dynamic.FirstFound`), the intended halves of the two rows under Findings. The program as written differs in two cases. A violation whose message starts with a policy ID ("P1234: …") makes createFindingRequest panic (request.go:81, called at sync.go:123); nothing recovers, so the process ends and no request is sent. A violation of a kind whose first mapping finds the object while a later one fails is reported not found (dynamic.go:94-103) and skipped (sync.go:187-189). In both cases the model sends a request.
- Sync.ResourcesMembers: stated over the corrected lookup, so it keeps a violation that the lookup as written loses (see the Sync.Client.Sync line above).
- Sync.ConstraintRequestsAt: builds each request with the corrected builder, where sync.go:123 calls the builder that panics on a policy-prefixed message.
- Sync.RequestsComplete: promises a request for every resource the corrected lookup finds; the program as written skips some of them or panics first.
- Sync.Client.GetResource: calls the corrected lookup, where sync.go:221 calls the one as written.
- Sync.Client.GetViolatingResources: keeps resources that the lookup as written reports missing.
- Sync.Client.AddConstraintRequests: builds requests where the program's createFindingRequest panics.
- Sync.Client.InsertBatch: records a policy-prefixed request where the program panics.
- Sync.Client.BuildFindingRequests: its map is that of the corrected builder and lookup, not of sync.go:118-127 as written.
- Oracles: the clock, SHA-256, JSON encoding, RFC 3339 parsing and `strconv.ParseFloat` are parameters. The model assumes of each only what the program's tests pin down: of ParseFloat, that it accepts "123456789012345678901" and refuses "test@gmail.com" and "abcde12345".
- Remote.Server.SetFindingState: the service is taken to answer a successful state change with a finding of the requested name. The program records the name of the finding the service returns (findings.go:235, findings.go:99-101); the model records the requested name.
- Reconcile.WalkCallsCorrect: one clock reading (`Reconcile.Context.now`, `Sync.Env.now`) stands for every `time.Now()` of a pass. The program reads the clock again for each state change (findings.go:222), for each request's event time (request.go:90) and for each audit-time fallback (sync.go:168), so its timestamps can differ from one another; the model's are all equal.
- Error texts: a Go value formatted with `%v` or `%+v` inside a message is not rendered. `Dynamic.NotFoundError` leaves out the list of mappings. The "no spec on object" error leaves out the object. `SetTimeout`'s error leaves out the duration.
- Text.ToLower, Text.EqualFold: case folding covers ASCII letters only. Go's `strings.ToLower` and `strings.EqualFold` fold all of Unicode.
- Dynamic.Index: the model follows Go 1.22 loop-variable semantics. Each entry points to its own constraint. Under older Go, `&constraint` (dynamic.go:80) would alias one variable for all entries.
- IamBindings: the policy and its bindings are values. The pointer sharing between `policy.Bindings` and the edited binding is not modelled, because nothing else observes it.
- CommandFlags: parsing command-line text into flag values (pflag) is not modelled. A flag is its parsed value.
  - `kubeconfig`: its default reads the home directory. It is represented by `Other`.
  - `cluster`: its Validate always passes, and it is modelled as such.
- Timeouts: a `time.Duration` is modelled as a whole number of nanoseconds. The `Seconds()` float comparison is stated on that integer.
- Paging: ListFindings and ListSources are each modelled as one stream of items that may end in a failure; the iterator fetches the pages. In `syncFindingsState` (findings.go:86), `:=` shadows the page token. The outer loop always reads the empty token it started with and ends after one pass, and this is what is modelled.
- The Go method `GetSource` (pkg/securitycenter/sources.go:28-36) is a single remote call with no logic of its own and is not modelled; the `sources get`/`list`/`create` commands are CLI wiring over the client methods above.

## Findings

| source | as written | input that shows it | evidently intended | confidence | as-written member | corrected member |
|---|---|---|---|---|---|---|
| pkg/sync/request.go:34 | `^(P\d{4}):` has one group, so `matches[2]` (line 81) is out of range whenever the message starts with a policy ID, and the builder panics | a violation message "P1234: no labels" | the policy ID goes in PolicyID and the rest of the message in Explanation | high (by reading; not executed) | FindingRequests.PolicyPrefixPanicsAsWritten | FindingRequests.PolicyIdAndExplanation |
| pkg/dynamic/dynamic.go:94-99 | the loop over the candidate mappings breaks on the first *error* ("found a match"), so a resource found under one mapping is lost when a later mapping fails, and a failing first mapping ends the search | kind with mappings [A, B], the object served under A only | the first mapping whose lookup succeeds gives the resource | high (by reading; not executed) | Dynamic.LookupAsWrittenMissesFoundResource | Dynamic.FirstFoundIsFirst |
