/**
 * The command-line flags of the tool: cmd/flag. Each flag checks its own
 * value; Flags checks a list of them in order, and registers them with a
 * flag set. Parsing the command line into the values is not modelled: a
 * flag is its parsed value.
 */
module CommandFlags {
  import opened Wrappers
  import opened Errors
  import opened Text

  /** The prefixes a member of an IAM policy binding may start with. */
  const ValidPrefixes: seq<string> := ["user:", "group:", "serviceAccount:", "domain:", "principal://", "principalSet://"]

  const DefaultDescription: string := "Reports violations from Gatekeeper audits"
  const DefaultDisplayName: string := "Gatekeeper"
  const DefaultIntervalSeconds: int := 120
  const DefaultSourceLimit: int := 100

  /** A flag's default as registered with the flag set. */
  datatype DefaultValue = Text(s: string) | Count(n: int)

  datatype Registration = Registration(name: string, default: DefaultValue)

  /** The implementations of the Flag interface, each with its parsed value. */
  datatype Flag =
    | Member(value: string)
    | ImpersonateServiceAccount(value: string)
    | OrganizationId(value: string)
    | Source(value: string)
    | Role(value: string)
    | Description(value: string)
    | DisplayName(value: string)
    | Interval(seconds: int)
    | SourceLimit(limit: int)
    | Cluster(value: string)
      /** Any other implementation, known by its name, default and verdict (kubeconfig, or one answering SkipValidation). */
    | Other(name: string, default: DefaultValue, verdict: Option<Error>)

  // ---------------------------------------------------------------- member

  /** The value ends with "?uid=" and one or more ASCII digits: what `\?uid=[0-9]+$` matches. */
  predicate HasUidSuffix(value: string) {
    exists k | 0 <= k < |value| - 5 :: OccursAt(value, "?uid=", k) && AllDigits(value[k + 5..])
  }

  /** The member starts with the prefix, or is a deleted member of that prefix carrying its uid. */
  predicate MatchesPrefix(value: string, prefix: string) {
    HasPrefix(value, prefix) || (HasPrefix(value, "deleted:" + prefix) && HasUidSuffix(value))
  }

  /** Member.Validate's loop over the prefixes, from the i-th on: the first match accepts. */
  function MemberVerdictFrom(value: string, i: nat): Option<Error>
    requires i <= |ValidPrefixes|
    decreases |ValidPrefixes| - i
  {
    if i == |ValidPrefixes| then Some(Message("invalid member: [" + value + "]"))
    else if MatchesPrefix(value, ValidPrefixes[i]) then None
    else MemberVerdictFrom(value, i + 1)
  }

  /** A member is accepted exactly when it matches one of the prefixes. */
  lemma {:induction false} MemberVerdictMeansPrefix(value: string, i: nat)
    requires i <= |ValidPrefixes|
    ensures MemberVerdictFrom(value, i).None? <==>
      exists j | i <= j < |ValidPrefixes| :: MatchesPrefix(value, ValidPrefixes[j])
    ensures MemberVerdictFrom(value, i).Some? ==> MemberVerdictFrom(value, i) == Some(Message("invalid member: [" + value + "]"))
    decreases |ValidPrefixes| - i
  {
    if i < |ValidPrefixes| {
      MemberVerdictMeansPrefix(value, i + 1);
    }
  }

  /** A string differing from the prefix at an index both cover does not start with it. */
  lemma NotPrefixAt(s: string, prefix: string, k: int)
    requires 0 <= k < |prefix| && k < |s| && s[k] != prefix[k]
    ensures !HasPrefix(s, prefix)
  {
  }

  /** An active member is accepted on its prefix alone. */
  lemma MemberAcceptsActive()
    ensures MemberVerdictFrom("user:" + "foo@example.com", 0).None?
  {
    assert HasPrefix("user:" + "foo@example.com", ValidPrefixes[0]);
  }

  /** A member starting with any of the prefixes is accepted whatever follows, a uid suffix included. */
  lemma MemberAcceptsAnyTail(j: nat, tail: string)
    requires j < |ValidPrefixes|
    ensures MemberVerdictFrom(ValidPrefixes[j] + tail, 0).None?
  {
    assert MatchesPrefix(ValidPrefixes[j] + tail, ValidPrefixes[j]);
    MemberVerdictMeansPrefix(ValidPrefixes[j] + tail, 0);
  }

  /** A deleted member is accepted with its uid suffix. */
  lemma MemberAcceptsDeletedWithUid()
    ensures MemberVerdictFrom("deleted:user:foo@example.com" + "?uid=" + "123456789012345678901", 0).None?
  {
    var head := "deleted:user:foo@example.com";
    var value := head + "?uid=" + "123456789012345678901";
    assert value[|head|..|head| + 5] == "?uid=";
    assert value[|head| + 5..] == "123456789012345678901";
    assert OccursAt(value, "?uid=", |head|) && AllDigits(value[|head| + 5..]);
    assert HasPrefix(value, "deleted:" + ValidPrefixes[0]) by {
      assert value[..13] == "deleted:user:";
    }
  }

  /** A member matching none of the prefixes, neither active nor deleted, is rejected. */
  lemma RejectedByEveryPrefix(value: string)
    requires !MatchesPrefix(value, "user:") && !MatchesPrefix(value, "group:")
    requires !MatchesPrefix(value, "serviceAccount:") && !MatchesPrefix(value, "domain:")
    requires !MatchesPrefix(value, "principal://") && !MatchesPrefix(value, "principalSet://")
    ensures MemberVerdictFrom(value, 0) == Some(Message("invalid member: [" + value + "]"))
  {
    forall j | 0 <= j < |ValidPrefixes| ensures !MatchesPrefix(value, ValidPrefixes[j]) {
      if j == 0 {} else if j == 1 {} else if j == 2 {} else if j == 3 {} else if j == 4 {} else {}
    }
    MemberVerdictMeansPrefix(value, 0);
  }

  /** A deleted member without its uid suffix is rejected. */
  lemma MemberRejectsDeletedWithoutUid()
    ensures MemberVerdictFrom("deleted:user:foo@example.com", 0).Some?
  {
    var value := "deleted:user:foo@example.com";
    assert !HasUidSuffix(value) by {
      forall k | 0 <= k < |value| - 5 ensures !OccursAt(value, "?uid=", k) {
        assert value[k] != '?';
        assert value[k..k + 5][0] == value[k];
      }
    }
    assert value[0] == 'd' && value[1] == 'e';
    NotPrefixAt(value, "user:", 0);
    NotPrefixAt(value, "group:", 0);
    NotPrefixAt(value, "serviceAccount:", 0);
    NotPrefixAt(value, "domain:", 1);
    NotPrefixAt(value, "principal://", 0);
    NotPrefixAt(value, "principalSet://", 0);
    RejectedByEveryPrefix(value);
  }

  /** A deleted member must still name its kind: a uid suffix alone is not enough. */
  lemma MemberRejectsDeletedWithoutKind()
    ensures MemberVerdictFrom("deleted:" + "foo@example.com" + "?uid=123456789012345678901", 0).Some?
  {
    var value := "deleted:" + "foo@example.com" + "?uid=123456789012345678901";
    NotPrefixAt(value, "user:", 0);
    NotPrefixAt(value, "group:", 0);
    NotPrefixAt(value, "serviceAccount:", 0);
    NotPrefixAt(value, "domain:", 1);
    NotPrefixAt(value, "principal://", 0);
    NotPrefixAt(value, "principalSet://", 0);
    NotPrefixAt(value, "deleted:user:", 8);
    NotPrefixAt(value, "deleted:group:", 8);
    NotPrefixAt(value, "deleted:serviceAccount:", 8);
    NotPrefixAt(value, "deleted:domain:", 8);
    NotPrefixAt(value, "deleted:principal://", 8);
    NotPrefixAt(value, "deleted:principalSet://", 8);
    RejectedByEveryPrefix(value);
  }

  /** A bare e-mail address and the empty string are rejected. */
  lemma MemberRejectsBare()
    ensures MemberVerdictFrom("foo@example.com", 0).Some?
    ensures MemberVerdictFrom("", 0).Some?
  {
    var value := "foo@example.com";
    NotPrefixAt(value, "user:", 0);
    NotPrefixAt(value, "group:", 0);
    NotPrefixAt(value, "serviceAccount:", 0);
    NotPrefixAt(value, "domain:", 0);
    NotPrefixAt(value, "principal://", 0);
    NotPrefixAt(value, "principalSet://", 0);
    RejectedByEveryPrefix(value);
    RejectedByEveryPrefix("");
  }

  // ---------------------------------------------------------------- other string flags

  /** Whether strconv.ParseFloat accepts a string: an oracle, of which the model needs only the strings the tests use. */
  ghost predicate IsParseFloat(parses: string -> bool) {
    && parses("123456789012345678901")
    && !parses("test@gmail.com")
    && !parses("abcde12345")
  }

  /** The organisation ID pattern `[0-9]+`, unanchored: some character is a digit. */
  predicate HasDigit(value: string) {
    exists i | 0 <= i < |value| :: IsDigit(value[i])
  }

  /** At position i the value holds "organizations/", digits up to a, then "/sources/" and a digit. */
  predicate SourceNameAt(value: string, i: int, a: int) {
    && 0 <= i && i + 14 < a && a + 9 < |value|
    && OccursAt(value, "organizations/", i) && AllDigits(value[i + 14..a])
    && OccursAt(value, "/sources/", a) && IsDigit(value[a + 9])
  }

  /** What the unanchored pattern `organizations/[0-9]+/sources/[0-9]+` matches. */
  predicate ContainsSourceName(value: string) {
    exists i, a | 0 <= i < a < |value| :: SourceNameAt(value, i, a)
  }

  /** What each flag's Validate answers; only the interface's other implementations can answer SkipValidation. */
  function Verdict(f: Flag, parsesAsFloat: string -> bool): Option<Error> {
    match f
    case Member(value) => MemberVerdictFrom(value, 0)
    case ImpersonateServiceAccount(value) =>
      if value == "" || HasSuffix(value, ".gserviceaccount.com") || parsesAsFloat(value) then None
      else Some(Message("invalid Google service account: [" + value + "]"))
    case OrganizationId(value) =>
      if HasDigit(value) then None else Some(Message("invalid organization ID: [" + value + "]"))
    case Source(value) =>
      if ContainsSourceName(value) then None else Some(Message("invalid source name: [" + value + "]"))
    case Role(value) =>
      if Contains(value, "roles/") then None else Some(Message("invalid role: [" + value + "]"))
    case Description(value) =>
      if Utf8Len(value) > 1024 then Some(Message("invalid description: [" + value + "], must be between max 1024 characters"))
      else None
    case DisplayName(value) =>
      if Utf8Len(value) < 1 || Utf8Len(value) > 64 then
        Some(Message("invalid display name: [" + value + "], must be between 1 and 64 characters"))
      else None
    case Interval(seconds) =>
      if seconds < 5 || seconds > 1000 then
        Some(Message("invalid value for findings-limit=" + IntToString(seconds) + ", must be between 5 and 1000"))
      else None
    case SourceLimit(limit) =>
      if limit < 1 || limit > 1000 then Some(Message("invalid source-limit, must be between 1 and 1000")) else None
    case Cluster(_) => None
    case Other(_, _, verdict) => verdict
  }

  // The acceptance condition of each flag of the package, one lemma per flag.

  lemma MemberValidIff(value: string, parsesAsFloat: string -> bool)
    ensures Verdict(Member(value), parsesAsFloat).None? <==>
      exists j | 0 <= j < |ValidPrefixes| :: MatchesPrefix(value, ValidPrefixes[j])
  {
    MemberVerdictMeansPrefix(value, 0);
  }

  /** An occurrence of sub in s is still one once text is put before and after s. */
  lemma OccursAtEmbedded(s: string, sub: string, i: int, pre: string, post: string)
    requires OccursAt(s, sub, i)
    ensures OccursAt(pre + s + post, sub, |pre| + i)
  {
    var t := pre + s + post;
    assert t[|pre| + i..|pre| + i + |sub|] == s[i..i + |sub|];
  }

  /** The organisation pattern is unanchored: an accepted ID stays accepted inside any text. */
  lemma OrganizationUnanchored(value: string, pre: string, post: string, parsesAsFloat: string -> bool)
    requires Verdict(OrganizationId(value), parsesAsFloat).None?
    ensures Verdict(OrganizationId(pre + value + post), parsesAsFloat).None?
  {
    var i :| 0 <= i < |value| && IsDigit(value[i]);
    assert (pre + value + post)[|pre| + i] == value[i];
  }

  /** The source pattern is unanchored: an accepted source stays accepted inside any text. */
  lemma SourceUnanchored(value: string, pre: string, post: string, parsesAsFloat: string -> bool)
    requires Verdict(Source(value), parsesAsFloat).None?
    ensures Verdict(Source(pre + value + post), parsesAsFloat).None?
  {
    var i, a :| 0 <= i < a < |value| && SourceNameAt(value, i, a);
    var t := pre + value + post;
    var k := |pre|;
    OccursAtEmbedded(value, "organizations/", i, pre, post);
    OccursAtEmbedded(value, "/sources/", a, pre, post);
    assert t[k + i + 14..k + a] == value[i + 14..a];
    assert t[k + a + 9] == value[a + 9];
    assert SourceNameAt(t, k + i, k + a);
  }

  /** The role check is a substring test: an accepted role stays accepted inside any text. */
  lemma RoleUnanchored(value: string, pre: string, post: string, parsesAsFloat: string -> bool)
    requires Verdict(Role(value), parsesAsFloat).None?
    ensures Verdict(Role(pre + value + post), parsesAsFloat).None?
  {
    var i :| 0 <= i <= |value| - 6 && OccursAt(value, "roles/", i);
    OccursAtEmbedded(value, "roles/", i, pre, post);
  }

  /** Any address in the service-account domain is accepted, whatever precedes the domain and whatever ParseFloat does. */
  lemma ServiceAccountDomainAccepted(local: string, parsesAsFloat: string -> bool)
    ensures Verdict(ImpersonateServiceAccount(local + ".gserviceaccount.com"), parsesAsFloat).None?
  {
    var value := local + ".gserviceaccount.com";
    assert value[|value| - 20..] == ".gserviceaccount.com";
  }

  /** The description bound counts bytes: text of two-byte runes is refused past 512 runes, well under 1024. */
  lemma DescriptionBytesNotRunes(value: string, parsesAsFloat: string -> bool)
    requires forall i | 0 <= i < |value| :: RuneLen(value[i]) == 2
    ensures Verdict(Description(value), parsesAsFloat).Some? <==> |value| > 512
  {
    Utf8LenTwoBytes(value);
  }

  /** The display-name bound counts bytes: a name of two-byte runes passes only with 1 to 32 runes. */
  lemma DisplayNameBytesNotRunes(value: string, parsesAsFloat: string -> bool)
    requires forall i | 0 <= i < |value| :: RuneLen(value[i]) == 2
    ensures Verdict(DisplayName(value), parsesAsFloat).None? <==> 1 <= |value| <= 32
  {
    Utf8LenTwoBytes(value);
  }

  /** Both interval bounds are inclusive, and the refusal names the findings-limit flag, not the interval. */
  lemma IntervalBounds(parsesAsFloat: string -> bool)
    ensures Verdict(Interval(5), parsesAsFloat).None? && Verdict(Interval(1000), parsesAsFloat).None?
    ensures Verdict(Interval(4), parsesAsFloat) == Some(Message("invalid value for findings-limit=" + "4" + ", must be between 5 and 1000"))
    ensures Verdict(Interval(1001), parsesAsFloat).Some?
  {
    assert IntToString(4) == ['4'];
  }

  /** Both source-limit bounds are inclusive; the refusal does not quote the value. */
  lemma SourceLimitBounds(parsesAsFloat: string -> bool)
    ensures Verdict(SourceLimit(1), parsesAsFloat).None? && Verdict(SourceLimit(1000), parsesAsFloat).None?
    ensures Verdict(SourceLimit(0), parsesAsFloat) == Verdict(SourceLimit(1001), parsesAsFloat)
              == Some(Message("invalid source-limit, must be between 1 and 1000"))
  { }

  /** Byte lengths, not rune counts, bound the description and the display name. */
  lemma LengthsAreBytes()
    ensures Verdict(DisplayName("ééééééééééééééééééééééééééééééééé"), _ => false).Some?
    ensures Verdict(Description(""), _ => false).None?
    ensures Verdict(DisplayName(""), _ => false).Some?
  {
    var name := "ééééééééééééééééééééééééééééééééé";
    assert |name| == 33;
    assert forall i | 0 <= i < |name| :: RuneLen(name[i]) == 2;
    Utf8LenTwoBytes(name);
  }

  lemma {:induction false} Utf8LenTwoBytes(s: string)
    requires forall i | 0 <= i < |s| :: RuneLen(s[i]) == 2
    ensures Utf8Len(s) == 2 * |s|
    decreases |s|
  {
    if s != [] {
      Utf8LenTwoBytes(s[..|s| - 1]);
    }
  }

  /** The service accounts the program's tests accept. */
  lemma ServiceAccountAccepted(parsesAsFloat: string -> bool)
    requires IsParseFloat(parsesAsFloat)
    ensures Verdict(ImpersonateServiceAccount(""), parsesAsFloat).None?
    ensures Verdict(ImpersonateServiceAccount("123456789012-compute@developer" + ".gserviceaccount.com"), parsesAsFloat).None?
    ensures Verdict(ImpersonateServiceAccount("123456789012345678901"), parsesAsFloat).None?
  {
    var account := "123456789012-compute@developer" + ".gserviceaccount.com";
    assert account[|account| - 20..] == ".gserviceaccount.com";
  }

  /** The service accounts the program's tests reject: a foreign e-mail address and a non-number. */
  lemma ServiceAccountRejected(parsesAsFloat: string -> bool)
    requires IsParseFloat(parsesAsFloat)
    ensures Verdict(ImpersonateServiceAccount("test@gmail.com"), parsesAsFloat).Some?
    ensures Verdict(ImpersonateServiceAccount("abcde12345"), parsesAsFloat).Some?
  {
    assert |"test@gmail.com"| < |".gserviceaccount.com"|;
    assert "abcde12345"[0] == 'a';
  }

  /** Organisation IDs need a digit somewhere. */
  lemma OrganizationExamples(parsesAsFloat: string -> bool)
    ensures Verdict(OrganizationId("abc1"), parsesAsFloat).None?
    ensures Verdict(OrganizationId("abc"), parsesAsFloat).Some?
  {
    assert IsDigit("abc1"[3]);
    assert !HasDigit("abc") by {
      forall i | 0 <= i < 3 ensures !IsDigit("abc"[i]) { }
    }
  }

  /** A source name is found anywhere in the value; a role needs "roles/" somewhere. */
  lemma SourceAndRoleExamples(parsesAsFloat: string -> bool)
    ensures Verdict(Source("organizations/" + "1" + "/sources/" + "2"), parsesAsFloat).None?
    ensures Verdict(Source(""), parsesAsFloat).Some?
    ensures Verdict(Role("organizations/1/" + "roles/" + "x"), parsesAsFloat).None?
    ensures Verdict(Role(""), parsesAsFloat).Some?
  {
    var source := "organizations/" + "1" + "/sources/" + "2";
    assert source[0..14] == "organizations/";
    assert source[14..15] == "1";
    assert source[15..24] == "/sources/";
    assert SourceNameAt(source, 0, 15);
    var role := "organizations/1/" + "roles/" + "x";
    assert role[16..22] == "roles/";
    assert OccursAt(role, "roles/", 16);
  }

  /** A source name needs digits after "/sources/": the placeholder "-" is refused. */
  lemma SourceRejectsPlaceholder(parsesAsFloat: string -> bool)
    ensures Verdict(Source("organizations/" + "1" + "/sources/" + "-"), parsesAsFloat).Some?
  {
    var value := "organizations/" + "1" + "/sources/" + "-";
    forall i, a | 0 <= i < a < |value| ensures !SourceNameAt(value, i, a) {
      if i + 14 < a && a + 9 < |value| {
        assert i == 0 && a == 15 && value[24] == '-';
      }
    }
  }

  /** The defaults pass their own checks. */
  lemma DefaultsValid(parsesAsFloat: string -> bool)
    ensures Verdict(Description(DefaultDescription), parsesAsFloat).None?
    ensures Verdict(DisplayName(DefaultDisplayName), parsesAsFloat).None?
    ensures Verdict(Interval(DefaultIntervalSeconds), parsesAsFloat).None?
    ensures Verdict(SourceLimit(DefaultSourceLimit), parsesAsFloat).None?
  {
    Utf8LenBounds(DefaultDescription);
    Utf8LenBounds(DefaultDisplayName);
  }

  // ---------------------------------------------------------------- the chain

  /** Flags.Validate over the verdicts in order: the first error, unless it is SkipValidation, which accepts all. */
  function Chain(verdicts: seq<Option<Error>>): Option<Error>
    decreases |verdicts|
  {
    if verdicts == [] then None
    else if verdicts[0] == Some(SkipValidation) then None
    else if verdicts[0].Some? then verdicts[0]
    else Chain(verdicts[1..])
  }

  /** The flags before position i all passed. */
  predicate PassedBefore(verdicts: seq<Option<Error>>, i: int) {
    forall j | 0 <= j < i && j < |verdicts| :: verdicts[j].None?
  }

  /**
   * The chain reports an error exactly when some verdict is an error other than SkipValidation and
   * every earlier flag passed; it accepts when all pass or when SkipValidation comes before any error.
   */
  lemma {:induction false} ChainFirstError(verdicts: seq<Option<Error>>)
    ensures Chain(verdicts).Some? <==>
      exists i | 0 <= i < |verdicts| :: verdicts[i].Some? && verdicts[i] != Some(SkipValidation) && PassedBefore(verdicts, i)
    ensures Chain(verdicts).Some? ==>
      exists i | 0 <= i < |verdicts| :: Chain(verdicts) == verdicts[i] && PassedBefore(verdicts, i)
    ensures Chain(verdicts).None? <==>
      PassedBefore(verdicts, |verdicts|) ||
      exists i | 0 <= i < |verdicts| :: verdicts[i] == Some(SkipValidation) && PassedBefore(verdicts, i)
    decreases |verdicts|
  {
    if verdicts != [] {
      var rest := verdicts[1..];
      ChainFirstError(rest);
      forall i | 0 <= i < |rest| ensures rest[i] == verdicts[i + 1] { }
      if verdicts[0].None? {
        forall i | 0 <= i <= |rest| ensures PassedBefore(rest, i) <==> PassedBefore(verdicts, i + 1) {
          if PassedBefore(rest, i) {
            forall j | 0 <= j < i + 1 && j < |verdicts| ensures verdicts[j].None? {
              if j > 0 { assert verdicts[j] == rest[j - 1]; }
            }
          }
        }
        if exists i | 0 <= i < |verdicts| :: verdicts[i].Some? && PassedBefore(verdicts, i) {
          var i :| 0 <= i < |verdicts| && verdicts[i].Some? && PassedBefore(verdicts, i);
          assert i > 0 && rest[i - 1] == verdicts[i];
        }
      } else {
        assert PassedBefore(verdicts, 0);
        if verdicts[0] != Some(SkipValidation) {
          assert !PassedBefore(verdicts, |verdicts|);
          forall i | 0 < i < |verdicts| ensures !PassedBefore(verdicts, i) { }
        }
      }
    }
  }

  /**
   * None of the package's own flags answers SkipValidation, so with only those the check passes
   * exactly when every flag passes.
   */
  lemma OwnFlagsPassIff(flags: seq<Flag>, parsesAsFloat: string -> bool)
    requires forall i | 0 <= i < |flags| :: !flags[i].Other?
    ensures Chain(Verdicts(flags, parsesAsFloat)).None? <==>
      forall i | 0 <= i < |flags| :: Verdict(flags[i], parsesAsFloat).None?
  {
    var verdicts := Verdicts(flags, parsesAsFloat);
    ChainFirstError(verdicts);
    forall i | 0 <= i < |flags| ensures verdicts[i] == Verdict(flags[i], parsesAsFloat) != Some(SkipValidation) { }
  }

  /** The verdicts of the flags, in order. */
  function Verdicts(flags: seq<Flag>, parsesAsFloat: string -> bool): (vs: seq<Option<Error>>)
    ensures |vs| == |flags|
  {
    seq(|flags|, i requires 0 <= i < |flags| => Verdict(flags[i], parsesAsFloat))
  }

  /** Add: the name and default of each flag. */
  function RegistrationOf(f: Flag): Registration {
    match f
    case Member(_) => Registration("member", Text(""))
    case ImpersonateServiceAccount(_) => Registration("impersonate-service-account", Text(""))
    case OrganizationId(_) => Registration("organization", Text(""))
    case Source(_) => Registration("source", Text(""))
    case Role(_) => Registration("role", Text(""))
    case Description(_) => Registration("description", Text(DefaultDescription))
    case DisplayName(_) => Registration("display-name", Text(DefaultDisplayName))
    case Interval(_) => Registration("interval", Count(DefaultIntervalSeconds))
    case SourceLimit(_) => Registration("source-limit", Count(DefaultSourceLimit))
    case Cluster(_) => Registration("cluster", Text(""))
    case Other(name, default, _) => Registration(name, default)
  }

  /** A pflag.FlagSet as the registrations made with it, in order. */
  class FlagSet {
    var registered: seq<Registration>

    constructor ()
      ensures registered == []
    {
      registered := [];
    }

    method Add(f: Flag)
      modifies this
      ensures registered == old(registered) + [RegistrationOf(f)]
    {
      registered := registered + [RegistrationOf(f)];
    }
  }

  class Flags {
    const flags: seq<Flag>

    /** New: the flags, validated in the order given. */
    constructor (flags: seq<Flag>)
      ensures this.flags == flags
    {
      this.flags := flags;
    }

    /** AddToFlagSet: register every flag, in order. */
    method AddToFlagSet(flagSet: FlagSet)
      modifies flagSet
      ensures |flagSet.registered| == |old(flagSet.registered)| + |flags|
      ensures flagSet.registered[..|old(flagSet.registered)|] == old(flagSet.registered)
      ensures forall i | 0 <= i < |flags| :: flagSet.registered[|old(flagSet.registered)| + i] == RegistrationOf(flags[i])
    {
      ghost var before := flagSet.registered;
      for i := 0 to |flags|
        invariant |flagSet.registered| == |before| + i
        invariant flagSet.registered[..|before|] == before
        invariant forall k | 0 <= k < i :: flagSet.registered[|before| + k] == RegistrationOf(flags[k])
      {
        flagSet.Add(flags[i]);
      }
    }

    /** Validate: the flags in order; the first error stops the check, and SkipValidation ends it with success. */
    method Validate(parsesAsFloat: string -> bool) returns (err: Option<Error>)
      ensures err == Chain(Verdicts(flags, parsesAsFloat))
    {
      var verdicts := Verdicts(flags, parsesAsFloat);
      for i := 0 to |flags|
        invariant PassedBefore(verdicts, i)
        invariant Chain(verdicts) == Chain(verdicts[i..])
      {
        assert verdicts[i..][1..] == verdicts[i + 1..];
        var e := Verdict(flags[i], parsesAsFloat);
        if e.Some? && e != Some(SkipValidation) {
          return e;
        }
        if e.Some? && e == Some(SkipValidation) {
          return None;
        }
      }
      return None;
    }
  }
}
