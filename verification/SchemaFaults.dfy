/** The schema of intent and status documents, as the set of faults of a decoded value.

    A fault is a code at a bounded path. The collectors and the typed decoders are both compared with these sets. */
module SchemaFaults {
  import opened Hierarchy
  import opened Wrappers
  import opened Pointer
  import opened Candidates
  import Number

  const INVALID_TYPE := "invalid-type"
  const INVALID_VALUE := "invalid-value"
  const MISSING_FIELD := "missing-field"
  const UNKNOWN_FIELD := "unknown-field"
  const UNSUPPORTED_VERSION := "unsupported-version"
  const UNSUPPORTED_KIND := "unsupported-kind"

  const API_VERSION := "v1alpha1"

  /** A decoded JSON value; numbers keep their text, and an object has lost any duplicate members. */
  datatype Value =
    | Null
    | Bool(b: bool)
    | Num(text: string)
    | Text(text: string)
    | List(items: seq<Value>)
    | Object(members: map<string, Value>)

  type Members = map<string, Value>

  /** The timestamp check of the time package: parsed by the exact layout and formatted back unchanged. */
  type Clock = string -> bool

  // ----- Patterns

  predicate Lower(c: char) { 'a' <= c <= 'z' }

  predicate Upper(c: char) { 'A' <= c <= 'Z' }

  predicate Digit(c: char) { '0' <= c <= '9' }

  predicate Alphanumeric(c: char) { Lower(c) || Upper(c) || Digit(c) }

  /** A lower-case letter, then at most this many letters, digits, dots and hyphens. */
  predicate NamePattern(text: string, more: nat) {
    && 1 <= |text| <= more + 1 && Lower(text[0])
    && forall i :: 0 < i < |text| ==> Lower(text[i]) || Digit(text[i]) || text[i] == '.' || text[i] == '-'
  }

  predicate ConditionPattern(text: string) {
    1 <= |text| <= 64 && Upper(text[0]) && forall i :: 0 < i < |text| ==> Alphanumeric(text[i])
  }

  predicate VersionPattern(text: string) {
    1 <= |text| <= 128 && forall i :: 0 <= i < |text| ==> Alphanumeric(text[i]) || text[i] == '_' || text[i] == '-'
  }

  predicate OpaqueIdPattern(text: string) {
    && 16 <= |text| <= 128 && Alphanumeric(text[0])
    && forall i :: 0 < i < |text| ==> Alphanumeric(text[i]) || text[i] == '_' || text[i] == '-'
  }

  predicate AllDigits(text: string) {
    forall i :: 0 <= i < |text| ==> Digit(text[i])
  }

  predicate WholePattern(text: string) {
    text != "" && AllDigits(text) && (|text| > 1 ==> text[0] != '0')
  }

  /** A plain decimal without superfluous zeros. */
  predicate DecimalPattern(text: string) {
    || WholePattern(text)
    || exists i :: 0 <= i < |text| && text[i] == '.' && WholePattern(text[..i]) && i + 1 < |text|
                   && AllDigits(text[i + 1..]) && text[|text| - 1] != '0'
  }

  /** Some 64-bit value is what the number parser reports. */
  ghost predicate Int64Text(text: string) {
    exists v :: Number.Yields(text, v)
  }

  // ----- Single members

  predicate Has(obj: Members, name: string) {
    name in obj && !obj[name].Null?
  }

  predicate HasText(obj: Members, name: string) {
    name in obj && obj[name].Text?
  }

  function One(holds: bool, code: string, path: string): set<Candidate> {
    if holds then {Fault(code, path)} else {}
  }

  /** A required member that is missing or null. */
  function NameFaults(obj: Members, name: string, path: string): set<Candidate> {
    One(name !in obj, MISSING_FIELD, Append(path, name))
      + One(name in obj && obj[name].Null?, INVALID_TYPE, Append(path, name))
  }

  function RequiredFaults(obj: Members, required: seq<string>, path: string): set<Candidate> {
    if required == [] then {}
    else RequiredFaults(obj, required[..|required| - 1], path) + NameFaults(obj, required[|required| - 1], path)
  }

  function UnknownFaults(obj: Members, allowed: seq<string>, path: string): set<Candidate> {
    set name | name in obj && name !in allowed :: Fault(UNKNOWN_FIELD, Append(path, name))
  }

  /** A present member that is neither null nor a string. */
  function TextFaults(obj: Members, name: string, path: string): set<Candidate> {
    One(Has(obj, name) && !obj[name].Text?, INVALID_TYPE, Append(path, name))
  }

  /** A string member whose text is not as it should be. */
  function CheckedFaults(obj: Members, name: string, path: string, ok: string -> bool): set<Candidate> {
    TextFaults(obj, name, path) + One(HasText(obj, name) && !ok(obj[name].text), INVALID_VALUE, Append(path, name))
  }

  ghost function NumberFaults(obj: Members, name: string, path: string): set<Candidate> {
    One(Has(obj, name) && !obj[name].Num?, INVALID_TYPE, Append(path, name)) +
    One(name in obj && obj[name].Num? && !Int64Text(obj[name].text), INVALID_VALUE, Append(path, name))
  }

  /** An optional decimal string; null is not absent here. */
  function DecimalFaults(obj: Members, name: string, path: string): set<Candidate> {
    One(name in obj && !obj[name].Text?, INVALID_TYPE, Append(path, name)) +
    One(HasText(obj, name) && !DecimalOk(obj[name].text), INVALID_VALUE, Append(path, name))
  }

  predicate DecimalOk(text: string) { |text| <= 64 && DecimalPattern(text) }

  // The checks on text members, named so that collectors and decoders share them.

  function IdCheck(): string -> bool { text => |text| <= 128 && OpaqueIdPattern(text) }

  function ReferenceCheck(): string -> bool { text => OpaqueIdPattern(text) }

  function VersionCheck(): string -> bool { text => VersionPattern(text) }

  function ProviderCheck(): string -> bool { text => NamePattern(text, 63) }

  function SourceCheck(): string -> bool { text => |text| <= 64 && NamePattern(text, 63) }

  function ObservationCheck(): string -> bool { text => |text| <= 128 && NamePattern(text, 127) }

  function WordCheck(): string -> bool { text => |text| <= 64 && ConditionPattern(text) }

  function DisplayNameCheck(): string -> bool { text => 1 <= |text| <= 128 }

  function MessageCheck(): string -> bool { text => |text| <= 512 }

  function OneOf(words: seq<string>): string -> bool { text => text in words }

  const ROLES := ["Viewer", "Developer", "Operator", "WorkspaceAdministrator"]
  const STATUSES := ["True", "False", "Unknown"]
  const CAPABILITY_STATES := ["Supported", "Unsupported", "Unknown"]
  const QUOTA_STATES := ["WithinLimit", "Exceeded", "Unknown"]

  /** hierarchy.ParseKind. */
  function ParseKind(text: string): Option<Kind> {
    if text == "Workspace" then Some(Workspace)
    else if text == "Environment" then Some(Environment)
    else if text == "Application" then Some(Application)
    else if text == "Component" then Some(Component)
    else if text == "Policy" then Some(Policy)
    else if text == "ProviderConnection" then Some(ProviderConnection)
    else None
  }

  function ParseScopeKind(text: string): Option<ScopeKind> {
    if text == "Workspace" then Some(WorkspaceScope) else if text == "Environment" then Some(EnvironmentScope) else None
  }

  // ----- Objects

  function ObjectFaults(obj: Members, required: seq<string>, allowed: seq<string>, path: string): set<Candidate> {
    RequiredFaults(obj, required, path) + UnknownFaults(obj, allowed, path)
  }

  function LabelFaults(name: string, item: Value, path: string): set<Candidate> {
    One(!NamePattern(name, 62), INVALID_VALUE, Append(path, name)) +
    One(!item.Text?, INVALID_TYPE, Append(path, name)) +
    One(item.Text? && |item.text| > 256, INVALID_VALUE, Append(path, name))
  }

  function LabelsFaults(value: Value, path: string): set<Candidate> {
    if !value.Object? then {Fault(INVALID_TYPE, path)}
    else One(|value.members| > 64, INVALID_VALUE, path) +
         set name, f | name in value.members && f in LabelFaults(name, value.members[name], path) :: f
  }

  const METADATA_REQUIRED := ["displayName"]
  const METADATA_ALLOWED := ["displayName", "labels"]

  function MetadataFaults(value: Value, path: string): set<Candidate> {
    if !value.Object? then {Fault(INVALID_TYPE, path)}
    else
      var obj := value.members;
      ObjectFaults(obj, METADATA_REQUIRED, METADATA_ALLOWED, path) +
      CheckedFaults(obj, "displayName", path, DisplayNameCheck()) +
      if "labels" in obj then LabelsFaults(obj["labels"], Append(path, "labels")) else {}
  }

  const WORKSPACE_ALLOWED := ["suspendReconciliation"]

  function WorkspaceSpecFaults(value: Value, path: string): set<Candidate> {
    if !value.Object? then {Fault(INVALID_TYPE, path)}
    else
      var obj := value.members;
      ObjectFaults(obj, [], WORKSPACE_ALLOWED, path) +
      One("suspendReconciliation" in obj && !obj["suspendReconciliation"].Bool?, INVALID_TYPE,
          Append(path, "suspendReconciliation"))
  }

  function EmptySpecFaults(value: Value, path: string): set<Candidate> {
    if !value.Object? then {Fault(INVALID_TYPE, path)} else ObjectFaults(value.members, [], [], path)
  }

  const SCOPE_REQUIRED := ["kind"]
  const SCOPE_ALLOWED := ["kind", "environmentId"]

  function ScopeKindOf(obj: Members): Option<ScopeKind> {
    if HasText(obj, "kind") then ParseScopeKind(obj["kind"].text) else None
  }

  function ScopeKindFaults(obj: Members, path: string): set<Candidate> {
    TextFaults(obj, "kind", path)
      + One(HasText(obj, "kind") && ScopeKindOf(obj).None?, INVALID_VALUE, Append(path, "kind"))
  }

  /** An environment scope names its environment and a workspace scope names none. */
  function EnvironmentFaults(obj: Members, path: string): set<Candidate> {
    var environment := Append(path, "environmentId");
    One("environmentId" in obj && obj["environmentId"].Null?, INVALID_TYPE, environment) +
    CheckedFaults(obj, "environmentId", path, IdCheck()) +
    One(ScopeKindOf(obj) == Some(WorkspaceScope) && "environmentId" in obj, INVALID_VALUE, environment) +
    One(ScopeKindOf(obj) == Some(EnvironmentScope) && "environmentId" !in obj, MISSING_FIELD, environment)
  }

  function ScopeFaults(value: Value, path: string): set<Candidate> {
    if !value.Object? then {Fault(INVALID_TYPE, path)}
    else ObjectFaults(value.members, SCOPE_REQUIRED, SCOPE_ALLOWED, path) +
         ScopeKindFaults(value.members, path) + EnvironmentFaults(value.members, path)
  }

  const BINDING_FIELDS := ["memberId", "role", "scope"]

  function BindingFaults(value: Value, path: string): set<Candidate> {
    if !value.Object? then {Fault(INVALID_TYPE, path)}
    else
      var obj := value.members;
      ObjectFaults(obj, BINDING_FIELDS, BINDING_FIELDS, path) +
      CheckedFaults(obj, "memberId", path, IdCheck()) +
      CheckedFaults(obj, "role", path, OneOf(ROLES)) +
      if Has(obj, "scope") then ScopeFaults(obj["scope"], Append(path, "scope")) else {}
  }

  function Item(path: string, k: nat): string {
    Append(path, Number.Decimal(k))
  }

  function BindingsFaults(items: seq<Value>, path: string): set<Candidate> {
    if items == [] then {}
    else BindingsFaults(items[..|items| - 1], path) + BindingFaults(items[|items| - 1], Item(path, |items| - 1))
  }

  const POLICY_FIELDS := ["bindings"]

  function PolicySpecFaults(value: Value, path: string): set<Candidate> {
    if !value.Object? then {Fault(INVALID_TYPE, path)}
    else
      var obj := value.members;
      var bindings := Append(path, "bindings");
      ObjectFaults(obj, POLICY_FIELDS, POLICY_FIELDS, path) +
      if !Has(obj, "bindings") then {}
      else if !obj["bindings"].List? then {Fault(INVALID_TYPE, bindings)}
      else One(|obj["bindings"].items| > MAX_BINDINGS, INVALID_VALUE, bindings)
           + BindingsFaults(obj["bindings"].items, bindings)
  }

  const REFERENCE_FIELDS := ["referenceId", "version"]

  function ReferenceFaults(value: Value, path: string): set<Candidate> {
    if !value.Object? then {Fault(INVALID_TYPE, path)}
    else
      ObjectFaults(value.members, REFERENCE_FIELDS, REFERENCE_FIELDS, path) +
      CheckedFaults(value.members, "referenceId", path, ReferenceCheck()) +
      CheckedFaults(value.members, "version", path, VersionCheck())
  }

  const PROVIDER_FIELDS := ["provider", "credentialRef"]

  function ProviderSpecFaults(value: Value, path: string): set<Candidate> {
    if !value.Object? then {Fault(INVALID_TYPE, path)}
    else
      var obj := value.members;
      ObjectFaults(obj, PROVIDER_FIELDS, PROVIDER_FIELDS, path) +
      CheckedFaults(obj, "provider", path, ProviderCheck()) +
      if "credentialRef" in obj then ReferenceFaults(obj["credentialRef"], Append(path, "credentialRef")) else {}
  }

  function SpecFaults(kind: Kind, value: Value, path: string): set<Candidate> {
    match kind
    case Workspace => WorkspaceSpecFaults(value, path)
    case Policy => PolicySpecFaults(value, path)
    case ProviderConnection => ProviderSpecFaults(value, path)
    case _ => EmptySpecFaults(value, path)
  }

  // ----- Status

  const CONDITION_FIELDS := ["type", "status", "reason", "message", "observedGeneration", "lastTransitionAt"]

  ghost function ConditionFaults(clock: Clock, value: Value, path: string): set<Candidate> {
    if !value.Object? then {Fault(INVALID_TYPE, path)}
    else
      var obj := value.members;
      ObjectFaults(obj, CONDITION_FIELDS, CONDITION_FIELDS, path) +
      CheckedFaults(obj, "type", path, WordCheck()) +
      CheckedFaults(obj, "status", path, OneOf(STATUSES)) +
      CheckedFaults(obj, "reason", path, WordCheck()) +
      CheckedFaults(obj, "message", path, MessageCheck()) +
      NumberFaults(obj, "observedGeneration", path) +
      CheckedFaults(obj, "lastTransitionAt", path, clock)
  }

  /** Where, when and why something was observed. */
  function OriginFaults(clock: Clock, obj: Members, path: string): set<Candidate> {
    CheckedFaults(obj, "source", path, SourceCheck()) +
    CheckedFaults(obj, "observedAt", path, clock) +
    CheckedFaults(obj, "reason", path, WordCheck())
  }

  const CAPABILITY_FIELDS := ["name", "state", "source", "observedAt", "reason"]

  function CapabilityFaults(clock: Clock, value: Value, path: string): set<Candidate> {
    if !value.Object? then {Fault(INVALID_TYPE, path)}
    else
      var obj := value.members;
      ObjectFaults(obj, CAPABILITY_FIELDS, CAPABILITY_FIELDS, path) +
      CheckedFaults(obj, "name", path, ObservationCheck()) +
      CheckedFaults(obj, "state", path, OneOf(CAPABILITY_STATES)) +
      OriginFaults(clock, obj, path)
  }

  const QUOTA_FIELDS := ["name", "state", "requested", "available", "source", "observedAt", "reason"]

  /** A state that does not fit the amounts given with it. */
  function AmountFaults(obj: Members, path: string): set<Candidate> {
    if !HasText(obj, "state") then {}
    else
      var state := obj["state"].text;
      var measured := state == "WithinLimit" || state == "Exceeded";
      One(state == "Unknown" && ("requested" in obj || "available" in obj), INVALID_VALUE, Append(path, "state")) +
      One(measured && "available" !in obj, MISSING_FIELD, Append(path, "available")) +
      One(measured && "requested" !in obj, MISSING_FIELD, Append(path, "requested"))
  }

  function QuotaFaults(clock: Clock, value: Value, path: string): set<Candidate> {
    if !value.Object? then {Fault(INVALID_TYPE, path)}
    else
      var obj := value.members;
      ObjectFaults(obj, CAPABILITY_FIELDS, QUOTA_FIELDS, path) +
      CheckedFaults(obj, "name", path, ObservationCheck()) +
      CheckedFaults(obj, "state", path, OneOf(QUOTA_STATES)) +
      DecimalFaults(obj, "requested", path) + DecimalFaults(obj, "available", path) + AmountFaults(obj, path) +
      OriginFaults(clock, obj, path)
  }

  /** The three lists of a status, each with its own items and limit. */
  datatype Entry = Conditions | Capabilities | Quotas

  function Limit(entry: Entry): nat {
    if entry.Conditions? then 32 else 128
  }

  ghost function EntryFaults(clock: Clock, entry: Entry, value: Value, path: string): set<Candidate> {
    match entry
    case Conditions => ConditionFaults(clock, value, path)
    case Capabilities => CapabilityFaults(clock, value, path)
    case Quotas => QuotaFaults(clock, value, path)
  }

  ghost function EntriesFaults(clock: Clock, entry: Entry, items: seq<Value>, path: string): set<Candidate> {
    if items == [] then {}
    else EntriesFaults(clock, entry, items[..|items| - 1], path)
         + EntryFaults(clock, entry, items[|items| - 1], Item(path, |items| - 1))
  }

  ghost function ListFaults(clock: Clock, entry: Entry, value: Value, path: string): set<Candidate> {
    if !value.List? then {Fault(INVALID_TYPE, path)}
    else One(|value.items| > Limit(entry), INVALID_VALUE, path) + EntriesFaults(clock, entry, value.items, path)
  }

  ghost function MemberListFaults(clock: Clock, entry: Entry, obj: Members, name: string,
                                  path: string): set<Candidate> {
    if name in obj then ListFaults(clock, entry, obj[name], Append(path, name)) else {}
  }

  const COMMON_FIELDS := ["observedGeneration", "conditions"]
  const PROVIDER_STATUS_FIELDS := ["observedGeneration", "conditions", "capabilities", "quotaChecks"]

  function StatusFields(kind: Kind): seq<string> {
    if kind.ProviderConnection? then PROVIDER_STATUS_FIELDS else COMMON_FIELDS
  }

  ghost function StatusFaults(clock: Clock, kind: Kind, value: Value, path: string): set<Candidate> {
    if !value.Object? then {Fault(INVALID_TYPE, path)}
    else
      var obj := value.members;
      ObjectFaults(obj, StatusFields(kind), StatusFields(kind), path) +
      NumberFaults(obj, "observedGeneration", path) +
      MemberListFaults(clock, Conditions, obj, "conditions", path) +
      if kind.ProviderConnection?
      then MemberListFaults(clock, Capabilities, obj, "capabilities", path)
           + MemberListFaults(clock, Quotas, obj, "quotaChecks", path)
      else {}
  }

  // ----- Documents

  const INTENT_FIELDS := ["apiVersion", "kind", "metadata", "spec"]
  const STATUS_FIELDS := ["apiVersion", "kind", "status"]

  function KindOf(root: Members): Option<Kind> {
    if HasText(root, "kind") then ParseKind(root["kind"].text) else None
  }

  function VersionFaults(root: Members): set<Candidate> {
    TextFaults(root, "apiVersion", "") +
    One(HasText(root, "apiVersion") && root["apiVersion"].text != API_VERSION, UNSUPPORTED_VERSION, "/apiVersion")
  }

  function KindFaults(root: Members): set<Candidate> {
    TextFaults(root, "kind", "") + One(HasText(root, "kind") && KindOf(root).None?, UNSUPPORTED_KIND, "/kind")
  }

  function IntentFaults(value: Value): set<Candidate> {
    if !value.Object? then {Fault(INVALID_TYPE, "")}
    else
      var root := value.members;
      ObjectFaults(root, INTENT_FIELDS, INTENT_FIELDS, "") + VersionFaults(root) + KindFaults(root) +
      (if "metadata" in root then MetadataFaults(root["metadata"], "/metadata") else {}) +
      if "spec" in root && KindOf(root).Some? then SpecFaults(KindOf(root).value, root["spec"], "/spec") else {}
  }

  ghost function StatusDocumentFaults(clock: Clock, value: Value): set<Candidate> {
    if !value.Object? then {Fault(INVALID_TYPE, "")}
    else
      var root := value.members;
      ObjectFaults(root, STATUS_FIELDS, STATUS_FIELDS, "") + VersionFaults(root) + KindFaults(root) +
      if "status" in root && KindOf(root).Some? then
        StatusFaults(clock, KindOf(root).value, root["status"], "/status")
      else {}
  }
}
