/** The typed decoders, which run after the collectors and must never fail where those found nothing.

    Every failure of a decoder is one of the faults of its value, and what it returns is what the value says. */
module SchemaDecode {
  import opened Hierarchy
  import opened Wrappers
  import opened Pointer
  import opened Candidates
  import opened SchemaFaults
  import opened SchemaCollect
  import Number

  datatype Result<+T> = Ok(value: T) | Err(fault: Candidate)

  // ----- Typed documents

  datatype Metadata = Metadata(displayName: string, labels: Option<map<string, string>>)

  datatype Scope = Scope(kind: ScopeKind, environmentId: Option<string>)

  datatype RoleBinding = RoleBinding(memberId: string, role: string, scope: Scope)

  datatype Spec =
    | WorkspaceSpec(suspendReconciliation: Option<bool>)
    | PolicySpec(bindings: seq<RoleBinding>)
    | ProviderSpec(provider: string, referenceId: string, version: string)
    | EmptySpec

  datatype Intent = Intent(apiVersion: string, kind: Kind, metadata: Metadata, spec: Spec)

  datatype EntryData =
    | Condition(name: string, status: string, reason: string, message: string, observedGeneration: int,
                lastTransitionAt: string)
    | Capability(name: string, state: string, source: string, observedAt: string, reason: string)
    | Quota(name: string, state: string, requested: Option<string>, available: Option<string>, source: string,
            observedAt: string, reason: string)

  datatype StatusData = StatusData(
    observedGeneration: int, conditions: seq<EntryData>, capabilities: seq<EntryData>, quotaChecks: seq<EntryData>)

  datatype Status = Status(apiVersion: string, kind: Kind, data: StatusData)

  // ----- What a typed document says about its value

  predicate TextAt(obj: Members, name: string, text: string) {
    name in obj && obj[name] == Text(text)
  }

  predicate OptionalTextAt(obj: Members, name: string, text: Option<string>) {
    if text.Some? then TextAt(obj, name, text.value) else name !in obj
  }

  ghost predicate NumberAt(obj: Members, name: string, v: int) {
    name in obj && obj[name].Num? && Number.Yields(obj[name].text, v)
  }

  predicate LabelsMatch(labels: map<string, string>, value: Value) {
    value.Object? && labels.Keys == value.members.Keys && forall name | name in labels ::
      value.members[name] == Text(labels[name])
  }

  predicate MetadataMatches(m: Metadata, value: Value) {
    && value.Object? && TextAt(value.members, "displayName", m.displayName)
    && (m.labels.None? <==> "labels" !in value.members)
    && (m.labels.Some? ==> LabelsMatch(m.labels.value, value.members["labels"]))
  }

  predicate ScopeMatches(s: Scope, value: Value) {
    && value.Object? && ScopeKindOf(value.members) == Some(s.kind)
    && OptionalTextAt(value.members, "environmentId", s.environmentId)
    && (s.environmentId.Some? <==> s.kind.EnvironmentScope?)
  }

  predicate BindingMatches(b: RoleBinding, value: Value) {
    && value.Object? && TextAt(value.members, "memberId", b.memberId) && TextAt(value.members, "role", b.role)
    && "scope" in value.members && ScopeMatches(b.scope, value.members["scope"])
  }

  predicate BindingsMatch(bindings: seq<RoleBinding>, items: seq<Value>) {
    |bindings| == |items| && forall i :: 0 <= i < |items| ==> BindingMatches(bindings[i], items[i])
  }

  predicate ReferenceMatches(referenceId: string, version: string, value: Value) {
    value.Object? && TextAt(value.members, "referenceId", referenceId) && TextAt(value.members, "version", version)
  }

  predicate SpecMatches(spec: Spec, kind: Kind, value: Value) {
    && value.Object?
    && var obj := value.members;
       match kind
       case Workspace =>
         && spec.WorkspaceSpec?
         && (if spec.suspendReconciliation.Some?
             then "suspendReconciliation" in obj
                  && obj["suspendReconciliation"] == Bool(spec.suspendReconciliation.value)
             else "suspendReconciliation" !in obj)
       case Policy =>
         spec.PolicySpec? && "bindings" in obj && obj["bindings"].List?
           && BindingsMatch(spec.bindings, obj["bindings"].items)
       case ProviderConnection =>
         && spec.ProviderSpec? && TextAt(obj, "provider", spec.provider)
         && "credentialRef" in obj && ReferenceMatches(spec.referenceId, spec.version, obj["credentialRef"])
       case _ => spec.EmptySpec? && obj == map[]
  }

  ghost predicate EntryMatches(entry: Entry, e: EntryData, value: Value) {
    && value.Object?
    && var obj := value.members;
       match entry
       case Conditions =>
         && e.Condition? && TextAt(obj, "type", e.name) && TextAt(obj, "status", e.status)
            && TextAt(obj, "reason", e.reason)
         && TextAt(obj, "message", e.message) && NumberAt(obj, "observedGeneration", e.observedGeneration)
         && TextAt(obj, "lastTransitionAt", e.lastTransitionAt)
       case Capabilities =>
         && e.Capability? && TextAt(obj, "name", e.name) && TextAt(obj, "state", e.state)
            && TextAt(obj, "source", e.source)
         && TextAt(obj, "observedAt", e.observedAt) && TextAt(obj, "reason", e.reason)
       case Quotas =>
         && e.Quota? && TextAt(obj, "name", e.name) && TextAt(obj, "state", e.state)
         && OptionalTextAt(obj, "requested", e.requested) && OptionalTextAt(obj, "available", e.available)
         && TextAt(obj, "source", e.source) && TextAt(obj, "observedAt", e.observedAt)
            && TextAt(obj, "reason", e.reason)
  }

  ghost predicate EntriesMatch(entry: Entry, es: seq<EntryData>, items: seq<Value>) {
    |es| == |items| && forall i :: 0 <= i < |items| ==> EntryMatches(entry, es[i], items[i])
  }

  ghost predicate ListAt(entry: Entry, es: seq<EntryData>, obj: Members, name: string) {
    name in obj && obj[name].List? && EntriesMatch(entry, es, obj[name].items)
  }

  ghost predicate StatusMatches(s: StatusData, kind: Kind, value: Value) {
    && value.Object?
    && NumberAt(value.members, "observedGeneration", s.observedGeneration)
    && ListAt(Conditions, s.conditions, value.members, "conditions")
    && if kind.ProviderConnection?
       then ListAt(Capabilities, s.capabilities, value.members, "capabilities")
            && ListAt(Quotas, s.quotaChecks, value.members, "quotaChecks")
       else s.capabilities == [] && s.quotaChecks == []
  }

  // ----- Lookups

  /** required. */
  function Required(obj: Members, name: string, path: string): (r: Result<Value>)
    ensures r.Err? ==> r.fault in NameFaults(obj, name, path)
    ensures r.Ok? ==> name in obj && r.value == obj[name] && !r.value.Null?
  {
    if name !in obj then Err(Fault(MISSING_FIELD, Append(path, name)))
    else if obj[name].Null? then Err(Fault(INVALID_TYPE, Append(path, name)))
    else Ok(obj[name])
  }

  /** requiredString and requiredPatternString: what can go wrong is missing, null, of another type, or not as
      checked. */
  function RequiredChecked(obj: Members, name: string, path: string, ok: string -> bool): (r: Result<string>)
    ensures r.Err? ==> r.fault in NameFaults(obj, name, path) + CheckedFaults(obj, name, path, ok)
    ensures r.Ok? ==> TextAt(obj, name, r.value) && ok(r.value)
  {
    var member := Required(obj, name, path);
    if member.Err? then Err(member.fault)
    else if !member.value.Text? then Err(Fault(INVALID_TYPE, Append(path, name)))
    else if !ok(member.value.text) then Err(Fault(INVALID_VALUE, Append(path, name)))
    else Ok(member.value.text)
  }

  /** requiredString on its own; the caller checks the text. */
  function RequiredString(obj: Members, name: string, path: string): (r: Result<string>)
    ensures r.Err? ==> r.fault in NameFaults(obj, name, path) + TextFaults(obj, name, path)
    ensures r.Ok? ==> TextAt(obj, name, r.value)
  {
    var member := Required(obj, name, path);
    if member.Err? then Err(member.fault)
    else if !member.value.Text? then Err(Fault(INVALID_TYPE, Append(path, name)))
    else Ok(member.value.text)
  }

  /** requiredNonNegativeInt64. */
  method RequiredNonNegativeInt64(obj: Members, name: string, path: string) returns (r: Result<int>)
    ensures r.Err? ==> r.fault in NameFaults(obj, name, path) + NumberFaults(obj, name, path)
    ensures r.Ok? ==> NumberAt(obj, name, r.value)
  {
    hide Number.Yields, Fault, Append;
    var member := Required(obj, name, path);
    if member.Err? { return Err(member.fault); }
    if !member.value.Num? { return Err(Fault(INVALID_TYPE, Append(path, name))); }
    var parsed := Number.NonNegativeInt64(member.value.text);
    ParsedExactly(member.value.text, parsed);
    if parsed.None? { return Err(Fault(INVALID_VALUE, Append(path, name))); }
    return Ok(parsed.value as int);
  }

  /** optionalDecimal. */
  function OptionalDecimal(obj: Members, name: string, path: string): (r: Result<Option<string>>)
    ensures r.Err? ==> r.fault in DecimalFaults(obj, name, path)
    ensures r.Ok? ==> OptionalTextAt(obj, name, r.value)
  {
    if name !in obj then Ok(None)
    else if !obj[name].Text? then Err(Fault(INVALID_TYPE, Append(path, name)))
    else if !DecimalOk(obj[name].text) then Err(Fault(INVALID_VALUE, Append(path, name)))
    else Ok(Some(obj[name].text))
  }

  /** The first of the names in sorted order. */
  ghost predicate IsFirst(first: string, names: set<string>) {
    first in names && forall name | name in names :: name == first || TextLess(first, name)
  }

  method First(names: set<string>) returns (first: string)
    requires names != {}
    ensures IsFirst(first, names)
  {
    first :| first in names;
    var left := names - {first};
    while left != {}
      invariant left <= names && first in names && first !in left
      invariant forall name | name in names && name !in left :: name == first || TextLess(first, name)
      decreases |left|
    {
      var next :| next in left;
      left := left - {next};
      TextLessTotal(next, first);
      if TextLess(next, first) {
        forall name | name in names && name !in left && name != first && name != next
          ensures TextLess(next, name)
        {
          TextLessTransitive(next, first, name);
        }
        first := next;
      }
    }
  }

  /** rejectUnknown: the first unknown member in sorted order. */
  method RejectUnknown(obj: Members, path: string, allowed: seq<string>) returns (r: Option<Candidate>)
    ensures r.None? <==> forall name | name in obj :: name in allowed
    ensures r.Some? ==> r.value in UnknownFaults(obj, allowed, path)
    ensures r.Some? ==> exists name ::
            IsFirst(name, set n | n in obj && n !in allowed) && r.value == Fault(UNKNOWN_FIELD, Append(path, name))
  {
    hide Append, Fault, TextLess;
    var unknown := set name | name in obj && name !in allowed;
    assert forall name | name in obj && name !in allowed :: name in unknown;
    if unknown == {} { return None; }
    var first := First(unknown);
    var member := AppendPointer(path, first);
    return Some(Fault(UNKNOWN_FIELD, member));
  }

  lemma {:induction false} RequiredHas(obj: Members, required: seq<string>, name: string, path: string)
    requires name in required
    ensures NameFaults(obj, name, path) <= RequiredFaults(obj, required, path)
  {
    hide NameFaults;
    var n := |required| - 1;
    if name != required[n] { RequiredHas(obj, required[..n], name, path); }
  }

  /** What goes wrong with a required member is among the faults of its object. */
  lemma Covers(obj: Members, required: seq<string>, allowed: seq<string>, i: nat, path: string)
    requires i < |required|
    ensures NameFaults(obj, required[i], path) <= ObjectFaults(obj, required, allowed, path)
  {
    hide NameFaults, RequiredFaults, UnknownFaults;
    RequiredHas(obj, required, required[i], path);
  }

  // ----- Intent

  method DecodeLabels(value: Value, path: string) returns (r: Result<map<string, string>>)
    ensures r.Err? ==> r.fault in LabelsFaults(value, path)
    ensures r.Ok? ==> LabelsMatch(r.value, value)
  {
    if !value.Object? { return Err(Fault(INVALID_TYPE, path)); }
    var labelsObject := value.members;
    if |labelsObject| > 64 { return Err(Fault(INVALID_VALUE, path)); }
    var keys := labelsObject.Keys;
    var labels: map<string, string> := map[];
    while keys != {}
      invariant keys <= labelsObject.Keys && labels.Keys == labelsObject.Keys - keys
      invariant forall name | name in labels :: labelsObject[name] == Text(labels[name])
      decreases |keys|
    {
      var key := First(keys);
      var bad := LabelProblem(key, labelsObject[key], path);
      if bad.Some? {
        assert bad.value in LabelFaults(key, labelsObject[key], path);
        return Err(bad.value);
      }
      labels := labels[key := labelsObject[key].text];
      keys := keys - {key};
    }
    return Ok(labels);
  }

  function LabelProblem(key: string, item: Value, path: string): (r: Option<Candidate>)
    ensures r.Some? ==> r.value in LabelFaults(key, item, path)
    ensures r.None? ==> item.Text?
  {
    if !NamePattern(key, 62) then Some(Fault(INVALID_VALUE, Append(path, key)))
    else if !item.Text? then Some(Fault(INVALID_TYPE, Append(path, key)))
    else if |item.text| > 256 then Some(Fault(INVALID_VALUE, Append(path, key)))
    else None
  }

  /** schemaMetadata. */
  method DecodeMetadata(value: Value, path: string) returns (r: Result<Metadata>)
    ensures r.Err? ==> r.fault in MetadataFaults(value, path)
    ensures r.Ok? ==> MetadataMatches(r.value, value)
  {
    hide Fault, Append, NameFaults, CheckedFaults, LabelsFaults, RequiredFaults, UnknownFaults, DisplayNameCheck;
    if !value.Object? { return Err(Fault(INVALID_TYPE, path)); }
    var obj := value.members;
    Covers(obj, METADATA_REQUIRED, METADATA_ALLOWED, 0, path);
    var unknown := RejectUnknown(obj, path, METADATA_ALLOWED);
    if unknown.Some? { return Err(unknown.value); }
    var displayName := RequiredChecked(obj, "displayName", path, DisplayNameCheck());
    if displayName.Err? { return Err(displayName.fault); }
    if "labels" !in obj { return Ok(Metadata(displayName.value, None)); }
    var labels := DecodeLabels(obj["labels"], Append(path, "labels"));
    if labels.Err? { return Err(labels.fault); }
    return Ok(Metadata(displayName.value, Some(labels.value)));
  }

  /** schemaWorkspaceSpec. */
  method DecodeWorkspaceSpec(value: Value, path: string) returns (r: Result<Spec>)
    ensures r.Err? ==> r.fault in WorkspaceSpecFaults(value, path)
    ensures r.Ok? ==> SpecMatches(r.value, Workspace, value)
  {
    hide Fault, Append, RequiredFaults, UnknownFaults;
    if !value.Object? { return Err(Fault(INVALID_TYPE, path)); }
    var obj := value.members;
    var unknown := RejectUnknown(obj, path, WORKSPACE_ALLOWED);
    if unknown.Some? { return Err(unknown.value); }
    if "suspendReconciliation" !in obj { return Ok(WorkspaceSpec(None)); }
    var flag := obj["suspendReconciliation"];
    if !flag.Bool? { return Err(Fault(INVALID_TYPE, Append(path, "suspendReconciliation"))); }
    return Ok(WorkspaceSpec(Some(flag.b)));
  }

  /** schemaEmptySpec. */
  method DecodeEmptySpec(kind: Kind, value: Value, path: string) returns (r: Result<Spec>)
    requires kind.Environment? || kind.Application? || kind.Component?
    ensures r.Err? ==> r.fault in EmptySpecFaults(value, path)
    ensures r.Ok? ==> SpecMatches(r.value, kind, value)
  {
    hide Fault, Append, RequiredFaults, UnknownFaults;
    if !value.Object? { return Err(Fault(INVALID_TYPE, path)); }
    var unknown := RejectUnknown(value.members, path, []);
    if unknown.Some? { return Err(unknown.value); }
    return Ok(EmptySpec);
  }

  /** schemaPolicyScope. */
  method DecodeScope(value: Value, path: string) returns (r: Result<Scope>)
    ensures r.Err? ==> r.fault in ScopeFaults(value, path)
    ensures r.Ok? ==> ScopeMatches(r.value, value)
  {
    hide Fault, Append, NameFaults, TextFaults, RequiredFaults, UnknownFaults, EnvironmentFaults, ParseScopeKind;
    if !value.Object? { return Err(Fault(INVALID_TYPE, path)); }
    var obj := value.members;
    Covers(obj, SCOPE_REQUIRED, SCOPE_ALLOWED, 0, path);
    var unknown := RejectUnknown(obj, path, SCOPE_ALLOWED);
    if unknown.Some? { return Err(unknown.value); }
    var text := RequiredString(obj, "kind", path);
    if text.Err? { return Err(text.fault); }
    var kind := ParseScopeKind(text.value);
    if kind.None? { return Err(Fault(INVALID_VALUE, Append(path, "kind"))); }
    var environment := DecodeEnvironment(obj, kind.value, path);
    if environment.Err? { return Err(environment.fault); }
    return Ok(Scope(kind.value, environment.value));
  }

  method DecodeEnvironment(obj: Members, kind: ScopeKind, path: string) returns (r: Result<Option<string>>)
    requires ScopeKindOf(obj) == Some(kind)
    ensures r.Err? ==> r.fault in EnvironmentFaults(obj, path)
    ensures r.Ok? ==> OptionalTextAt(obj, "environmentId", r.value) && (r.value.Some? <==> kind.EnvironmentScope?)
  {
    hide Fault, Append, ScopeKindOf, IdCheck;
    var member := Append(path, "environmentId");
    if kind.WorkspaceScope? {
      if "environmentId" in obj {
        if !obj["environmentId"].Text? { return Err(Fault(INVALID_TYPE, member)); }
        return Err(Fault(INVALID_VALUE, member));
      }
      return Ok(None);
    }
    if "environmentId" !in obj { return Err(Fault(MISSING_FIELD, member)); }
    var id := RequiredChecked(obj, "environmentId", path, IdCheck());
    if id.Err? { return Err(id.fault); }
    return Ok(Some(id.value));
  }

  /** schemaPolicyBinding. */
  method DecodeBinding(value: Value, path: string) returns (r: Result<RoleBinding>)
    ensures r.Err? ==> r.fault in BindingFaults(value, path)
    ensures r.Ok? ==> BindingMatches(r.value, value)
  {
    hide Fault, Append, NameFaults, CheckedFaults, RequiredFaults, UnknownFaults, ScopeFaults, ScopeMatches, IdCheck,
         OneOf;
    if !value.Object? { return Err(Fault(INVALID_TYPE, path)); }
    var obj := value.members;
    Covers(obj, BINDING_FIELDS, BINDING_FIELDS, 0, path);
    Covers(obj, BINDING_FIELDS, BINDING_FIELDS, 1, path);
    Covers(obj, BINDING_FIELDS, BINDING_FIELDS, 2, path);
    var unknown := RejectUnknown(obj, path, BINDING_FIELDS);
    if unknown.Some? { return Err(unknown.value); }
    var memberId := RequiredChecked(obj, "memberId", path, IdCheck());
    if memberId.Err? { return Err(memberId.fault); }
    var role := RequiredChecked(obj, "role", path, OneOf(ROLES));
    if role.Err? { return Err(role.fault); }
    var scopeValue := Required(obj, "scope", path);
    if scopeValue.Err? { return Err(scopeValue.fault); }
    var scope := DecodeScope(scopeValue.value, Append(path, "scope"));
    if scope.Err? { return Err(scope.fault); }
    return Ok(RoleBinding(memberId.value, role.value, scope.value));
  }

  lemma {:induction false} BindingsHas(items: seq<Value>, path: string, i: nat)
    requires i < |items|
    ensures BindingFaults(items[i], Item(path, i)) <= BindingsFaults(items, path)
  {
    hide BindingFaults;
    if i < |items| - 1 { BindingsHas(items[..|items| - 1], path, i); }
  }

  /** The loop of schemaPolicySpec. */
  method DecodeBindings(items: seq<Value>, path: string) returns (r: Result<seq<RoleBinding>>)
    ensures r.Err? ==> r.fault in BindingsFaults(items, path)
    ensures r.Ok? ==> BindingsMatch(r.value, items)
  {
    hide BindingFaults, BindingMatches, Append;
    var bindings: seq<RoleBinding> := [];
    for i := 0 to |items|
      invariant |bindings| == i && forall k :: 0 <= k < i ==> BindingMatches(bindings[k], items[k])
    {
      BindingsHas(items, path, i);
      var binding := DecodeBinding(items[i], Item(path, i));
      if binding.Err? { return Err(binding.fault); }
      bindings := bindings + [binding.value];
    }
    return Ok(bindings);
  }

  /** schemaPolicySpec. */
  method DecodePolicySpec(value: Value, path: string) returns (r: Result<Spec>)
    ensures r.Err? ==> r.fault in PolicySpecFaults(value, path)
    ensures r.Ok? ==> SpecMatches(r.value, Policy, value)
  {
    hide Fault, Append, NameFaults, RequiredFaults, UnknownFaults, BindingsFaults, BindingsMatch;
    if !value.Object? { return Err(Fault(INVALID_TYPE, path)); }
    var obj := value.members;
    Covers(obj, POLICY_FIELDS, POLICY_FIELDS, 0, path);
    var unknown := RejectUnknown(obj, path, POLICY_FIELDS);
    if unknown.Some? { return Err(unknown.value); }
    var list := Required(obj, "bindings", path);
    if list.Err? { return Err(list.fault); }
    if !list.value.List? { return Err(Fault(INVALID_TYPE, Append(path, "bindings"))); }
    if |list.value.items| > MAX_BINDINGS { return Err(Fault(INVALID_VALUE, Append(path, "bindings"))); }
    var bindings := DecodeBindings(list.value.items, Append(path, "bindings"));
    if bindings.Err? { return Err(bindings.fault); }
    return Ok(PolicySpec(bindings.value));
  }

  method DecodeReference(value: Value, path: string) returns (r: Result<(string, string)>)
    ensures r.Err? ==> r.fault in ReferenceFaults(value, path)
    ensures r.Ok? ==> ReferenceMatches(r.value.0, r.value.1, value)
  {
    hide Fault, Append, NameFaults, CheckedFaults, RequiredFaults, UnknownFaults, ReferenceCheck, VersionCheck;
    if !value.Object? { return Err(Fault(INVALID_TYPE, path)); }
    var obj := value.members;
    Covers(obj, REFERENCE_FIELDS, REFERENCE_FIELDS, 0, path);
    Covers(obj, REFERENCE_FIELDS, REFERENCE_FIELDS, 1, path);
    var unknown := RejectUnknown(obj, path, REFERENCE_FIELDS);
    if unknown.Some? { return Err(unknown.value); }
    var id := RequiredChecked(obj, "referenceId", path, ReferenceCheck());
    if id.Err? { return Err(id.fault); }
    var version := RequiredChecked(obj, "version", path, VersionCheck());
    if version.Err? { return Err(version.fault); }
    return Ok((id.value, version.value));
  }

  /** schemaProviderSpec. */
  method DecodeProviderSpec(value: Value, path: string) returns (r: Result<Spec>)
    ensures r.Err? ==> r.fault in ProviderSpecFaults(value, path)
    ensures r.Ok? ==> SpecMatches(r.value, ProviderConnection, value)
  {
    hide Fault, Append, NameFaults, CheckedFaults, RequiredFaults, UnknownFaults, ReferenceFaults, ReferenceMatches,
         ProviderCheck;
    if !value.Object? { return Err(Fault(INVALID_TYPE, path)); }
    var obj := value.members;
    Covers(obj, PROVIDER_FIELDS, PROVIDER_FIELDS, 0, path);
    Covers(obj, PROVIDER_FIELDS, PROVIDER_FIELDS, 1, path);
    var unknown := RejectUnknown(obj, path, PROVIDER_FIELDS);
    if unknown.Some? { return Err(unknown.value); }
    var provider := RequiredChecked(obj, "provider", path, ProviderCheck());
    if provider.Err? { return Err(provider.fault); }
    var referenceValue := Required(obj, "credentialRef", path);
    if referenceValue.Err? { return Err(referenceValue.fault); }
    var reference := DecodeReference(referenceValue.value, Append(path, "credentialRef"));
    if reference.Err? { return Err(reference.fault); }
    return Ok(ProviderSpec(provider.value, reference.value.0, reference.value.1));
  }

  method DecodeSpec(kind: Kind, value: Value, path: string) returns (r: Result<Spec>)
    ensures r.Err? ==> r.fault in SpecFaults(kind, value, path)
    ensures r.Ok? ==> SpecMatches(r.value, kind, value)
  {
    hide SpecMatches, WorkspaceSpecFaults, PolicySpecFaults, ProviderSpecFaults, EmptySpecFaults;
    match kind
    case Workspace => r := DecodeWorkspaceSpec(value, path);
    case Policy => r := DecodePolicySpec(value, path);
    case ProviderConnection => r := DecodeProviderSpec(value, path);
    case _ => r := DecodeEmptySpec(kind, value, path);
  }

  // ----- Status

  /** One item of schemaConditions. */
  method DecodeCondition(ghost clock: Clock, value: Value, path: string) returns (r: Result<EntryData>)
    ensures r.Err? ==> r.fault in ConditionFaults(clock, value, path)
    ensures r.Ok? ==> EntryMatches(Conditions, r.value, value)
  {
    hide Fault, Append, NameFaults, RequiredFaults, UnknownFaults, NumberFaults, WordCheck, OneOf, MessageCheck,
         NumberAt;
    if !value.Object? { return Err(Fault(INVALID_TYPE, path)); }
    var obj := value.members;
    forall i | 0 <= i < 6
      ensures NameFaults(obj, CONDITION_FIELDS[i], path) <= ObjectFaults(obj, CONDITION_FIELDS, CONDITION_FIELDS, path)
    {
      Covers(obj, CONDITION_FIELDS, CONDITION_FIELDS, i, path);
    }
    assert CONDITION_FIELDS[0] == "type" && CONDITION_FIELDS[1] == "status" && CONDITION_FIELDS[2] == "reason";
    assert CONDITION_FIELDS[3] == "message" && CONDITION_FIELDS[4] == "observedGeneration"
           && CONDITION_FIELDS[5] == "lastTransitionAt";
    var unknown := RejectUnknown(obj, path, CONDITION_FIELDS);
    if unknown.Some? { return Err(unknown.value); }
    var name := RequiredChecked(obj, "type", path, WordCheck());
    if name.Err? { return Err(name.fault); }
    var status := RequiredChecked(obj, "status", path, OneOf(STATUSES));
    if status.Err? { return Err(status.fault); }
    var reason := RequiredChecked(obj, "reason", path, WordCheck());
    if reason.Err? { return Err(reason.fault); }
    var message := RequiredChecked(obj, "message", path, MessageCheck());
    if message.Err? { return Err(message.fault); }
    var observed := RequiredNonNegativeInt64(obj, "observedGeneration", path);
    if observed.Err? { return Err(observed.fault); }
    var at := RequiredString(obj, "lastTransitionAt", path);
    if at.Err? { return Err(at.fault); }
    return Ok(Condition(name.value, status.value, reason.value, message.value, observed.value, at.value));
  }

  /** One item of schemaCapabilities. */
  method DecodeCapability(ghost clock: Clock, value: Value, path: string) returns (r: Result<EntryData>)
    ensures r.Err? ==> r.fault in CapabilityFaults(clock, value, path)
    ensures r.Ok? ==> EntryMatches(Capabilities, r.value, value)
  {
    hide Fault, Append, NameFaults, RequiredFaults, UnknownFaults, WordCheck, OneOf, ObservationCheck, SourceCheck;
    if !value.Object? { return Err(Fault(INVALID_TYPE, path)); }
    var obj := value.members;
    CoversObservation(obj, CAPABILITY_FIELDS, path);
    var unknown := RejectUnknown(obj, path, CAPABILITY_FIELDS);
    if unknown.Some? { return Err(unknown.value); }
    var name := RequiredChecked(obj, "name", path, ObservationCheck());
    if name.Err? { return Err(name.fault); }
    var state := RequiredChecked(obj, "state", path, OneOf(CAPABILITY_STATES));
    if state.Err? { return Err(state.fault); }
    var source := RequiredChecked(obj, "source", path, SourceCheck());
    if source.Err? { return Err(source.fault); }
    var at := RequiredString(obj, "observedAt", path);
    if at.Err? { return Err(at.fault); }
    var reason := RequiredChecked(obj, "reason", path, WordCheck());
    if reason.Err? { return Err(reason.fault); }
    return Ok(Capability(name.value, state.value, source.value, at.value, reason.value));
  }

  lemma CoversObservation(obj: Members, allowed: seq<string>, path: string)
    ensures NameFaults(obj, "name", path) + NameFaults(obj, "state", path) + NameFaults(obj, "source", path)
            + NameFaults(obj, "observedAt", path) + NameFaults(obj, "reason", path) <=
              ObjectFaults(obj, CAPABILITY_FIELDS, allowed, path)
  {
    hide NameFaults, ObjectFaults;
    Covers(obj, CAPABILITY_FIELDS, allowed, 0, path);
    Covers(obj, CAPABILITY_FIELDS, allowed, 1, path);
    Covers(obj, CAPABILITY_FIELDS, allowed, 2, path);
    Covers(obj, CAPABILITY_FIELDS, allowed, 3, path);
    Covers(obj, CAPABILITY_FIELDS, allowed, 4, path);
  }

  /** One item of schemaQuotaChecks. */
  method DecodeQuota(ghost clock: Clock, value: Value, path: string) returns (r: Result<EntryData>)
    ensures r.Err? ==> r.fault in QuotaFaults(clock, value, path)
    ensures r.Ok? ==> EntryMatches(Quotas, r.value, value)
  {
    hide Fault, Append, NameFaults, RequiredFaults, UnknownFaults, DecimalFaults, AmountFaults, WordCheck, OneOf,
         ObservationCheck, SourceCheck, DecimalOk;
    if !value.Object? { return Err(Fault(INVALID_TYPE, path)); }
    var obj := value.members;
    CoversObservation(obj, QUOTA_FIELDS, path);
    var unknown := RejectUnknown(obj, path, QUOTA_FIELDS);
    if unknown.Some? { return Err(unknown.value); }
    var name := RequiredChecked(obj, "name", path, ObservationCheck());
    if name.Err? { return Err(name.fault); }
    var state := RequiredChecked(obj, "state", path, OneOf(QUOTA_STATES));
    if state.Err? { return Err(state.fault); }
    var requested := OptionalDecimal(obj, "requested", path);
    if requested.Err? { return Err(requested.fault); }
    var available := OptionalDecimal(obj, "available", path);
    if available.Err? { return Err(available.fault); }
    var source := RequiredChecked(obj, "source", path, SourceCheck());
    if source.Err? { return Err(source.fault); }
    var at := RequiredString(obj, "observedAt", path);
    if at.Err? { return Err(at.fault); }
    var reason := RequiredChecked(obj, "reason", path, WordCheck());
    if reason.Err? { return Err(reason.fault); }
    return Ok(Quota(name.value, state.value, requested.value, available.value, source.value, at.value, reason.value));
  }

  lemma {:induction false} EntriesHas(clock: Clock, entry: Entry, items: seq<Value>, path: string, i: nat)
    requires i < |items|
    ensures EntryFaults(clock, entry, items[i], Item(path, i)) <= EntriesFaults(clock, entry, items, path)
  {
    hide EntryFaults;
    if i < |items| - 1 { EntriesHas(clock, entry, items[..|items| - 1], path, i); }
  }

  method DecodeEntry(ghost clock: Clock, entry: Entry, value: Value, path: string) returns (r: Result<EntryData>)
    ensures r.Err? ==> r.fault in EntryFaults(clock, entry, value, path)
    ensures r.Ok? ==> EntryMatches(entry, r.value, value)
  {
    hide ConditionFaults, CapabilityFaults, QuotaFaults, EntryMatches;
    match entry
    case Conditions => r := DecodeCondition(clock, value, path);
    case Capabilities => r := DecodeCapability(clock, value, path);
    case Quotas => r := DecodeQuota(clock, value, path);
  }

  /** schemaConditions, schemaCapabilities and schemaQuotaChecks. */
  method DecodeList(ghost clock: Clock, entry: Entry, value: Value, path: string) returns (r: Result<seq<EntryData>>)
    ensures r.Err? ==> r.fault in ListFaults(clock, entry, value, path)
    ensures r.Ok? ==> value.List? && EntriesMatch(entry, r.value, value.items)
  {
    hide EntryFaults, EntriesFaults, EntryMatches, Append, Fault;
    if !value.List? { return Err(Fault(INVALID_TYPE, path)); }
    if |value.items| > Limit(entry) { return Err(Fault(INVALID_VALUE, path)); }
    var entries: seq<EntryData> := [];
    for i := 0 to |value.items|
      invariant |entries| == i && forall k :: 0 <= k < i ==> EntryMatches(entry, entries[k], value.items[k])
    {
      EntriesHas(clock, entry, value.items, path, i);
      var item := DecodeEntry(clock, entry, value.items[i], Item(path, i));
      if item.Err? { return Err(item.fault); }
      entries := entries + [item.value];
    }
    return Ok(entries);
  }

  method DecodeMemberList(ghost clock: Clock, entry: Entry, obj: Members, name: string, path: string)
    returns (r: Result<seq<EntryData>>)
    ensures r.Err? ==> r.fault in NameFaults(obj, name, path) + MemberListFaults(clock, entry, obj, name, path)
    ensures r.Ok? ==> ListAt(entry, r.value, obj, name)
  {
    hide ListFaults, NameFaults, EntriesMatch, Append;
    var list := Required(obj, name, path);
    if list.Err? { return Err(list.fault); }
    r := DecodeList(clock, entry, list.value, Append(path, name));
  }

  lemma CoversStatus(obj: Members, kind: Kind, path: string)
    ensures NameFaults(obj, "observedGeneration", path) + NameFaults(obj, "conditions", path) <=
            ObjectFaults(obj, StatusFields(kind), StatusFields(kind), path)
    ensures kind.ProviderConnection? ==>
              NameFaults(obj, "capabilities", path) + NameFaults(obj, "quotaChecks", path) <=
                ObjectFaults(obj, StatusFields(kind), StatusFields(kind), path)
  {
    hide NameFaults, ObjectFaults;
    var fields := StatusFields(kind);
    Covers(obj, fields, fields, 0, path);
    Covers(obj, fields, fields, 1, path);
    if kind.ProviderConnection? {
      Covers(obj, fields, fields, 2, path);
      Covers(obj, fields, fields, 3, path);
    }
  }

  /** schemaCommonStatus and schemaProviderStatus. */
  method DecodeStatus(ghost clock: Clock, kind: Kind, value: Value, path: string) returns (r: Result<StatusData>)
    ensures r.Err? ==> r.fault in StatusFaults(clock, kind, value, path)
    ensures r.Ok? ==> StatusMatches(r.value, kind, value)
  {
    hide Fault, Append, NameFaults, RequiredFaults, UnknownFaults, NumberFaults, MemberListFaults, NumberAt, ListAt,
         StatusFields;
    if !value.Object? { return Err(Fault(INVALID_TYPE, path)); }
    var obj := value.members;
    CoversStatus(obj, kind, path);
    var unknown := RejectUnknown(obj, path, StatusFields(kind));
    if unknown.Some? { return Err(unknown.value); }
    var observed := RequiredNonNegativeInt64(obj, "observedGeneration", path);
    if observed.Err? { return Err(observed.fault); }
    var conditions := DecodeMemberList(clock, Conditions, obj, "conditions", path);
    if conditions.Err? { return Err(conditions.fault); }
    if !kind.ProviderConnection? { return Ok(StatusData(observed.value, conditions.value, [], [])); }
    var capabilities := DecodeMemberList(clock, Capabilities, obj, "capabilities", path);
    if capabilities.Err? { return Err(capabilities.fault); }
    var quotas := DecodeMemberList(clock, Quotas, obj, "quotaChecks", path);
    if quotas.Err? { return Err(quotas.fault); }
    return Ok(StatusData(observed.value, conditions.value, capabilities.value, quotas.value));
  }

  // ----- Documents

  ghost predicate HeadMatches(apiVersion: string, kind: Kind, root: Members) {
    apiVersion == API_VERSION && TextAt(root, "apiVersion", apiVersion) && KindOf(root) == Some(kind)
  }

  ghost predicate IntentMatches(intent: Intent, value: Value) {
    && value.Object? && HeadMatches(intent.apiVersion, intent.kind, value.members)
    && "metadata" in value.members && MetadataMatches(intent.metadata, value.members["metadata"])
    && "spec" in value.members && SpecMatches(intent.spec, intent.kind, value.members["spec"])
  }

  ghost predicate StatusDocumentMatches(status: Status, value: Value) {
    && value.Object? && HeadMatches(status.apiVersion, status.kind, value.members)
    && "status" in value.members && StatusMatches(status.data, status.kind, value.members["status"])
  }

  /** The version and kind of a document. */
  method DecodeHead(root: Members) returns (r: Result<(string, Kind)>)
    ensures r.Err? ==>
            r.fault in NameFaults(root, "apiVersion", "") + NameFaults(root, "kind", "") + VersionFaults(root)
              + KindFaults(root)
    ensures r.Ok? ==> HeadMatches(r.value.0, r.value.1, root)
  {
    hide Fault, Append, NameFaults, TextFaults, ParseKind;
    var version := RequiredString(root, "apiVersion", "");
    if version.Err? { return Err(version.fault); }
    if version.value != API_VERSION { return Err(Fault(UNSUPPORTED_VERSION, "/apiVersion")); }
    var text := RequiredString(root, "kind", "");
    if text.Err? { return Err(text.fault); }
    var kind := ParseKind(text.value);
    if kind.None? { return Err(Fault(UNSUPPORTED_KIND, "/kind")); }
    return Ok((version.value, kind.value));
  }

  lemma CoversIntent(root: Members)
    ensures NameFaults(root, "apiVersion", "") + NameFaults(root, "kind", "") + NameFaults(root, "metadata", "")
            + NameFaults(root, "spec", "")
            <= ObjectFaults(root, INTENT_FIELDS, INTENT_FIELDS, "")
  {
    hide NameFaults, ObjectFaults;
    Covers(root, INTENT_FIELDS, INTENT_FIELDS, 0, "");
    Covers(root, INTENT_FIELDS, INTENT_FIELDS, 1, "");
    Covers(root, INTENT_FIELDS, INTENT_FIELDS, 2, "");
    Covers(root, INTENT_FIELDS, INTENT_FIELDS, 3, "");
  }

  /** The decoding half of schemaIntent. */
  method DecodeIntent(value: Value) returns (r: Result<Intent>)
    ensures r.Err? ==> r.fault in IntentFaults(value)
    ensures r.Ok? ==> IntentMatches(r.value, value)
  {
    hide Fault, Append, NameFaults, RequiredFaults, UnknownFaults, VersionFaults, KindFaults, KindOf, MetadataFaults,
         SpecFaults, MetadataMatches, SpecMatches;
    if !value.Object? { return Err(Fault(INVALID_TYPE, "")); }
    var root := value.members;
    CoversIntent(root);
    var unknown := RejectUnknown(root, "", INTENT_FIELDS);
    if unknown.Some? { return Err(unknown.value); }
    var head := DecodeHead(root);
    if head.Err? { return Err(head.fault); }
    var metadataValue := Required(root, "metadata", "");
    if metadataValue.Err? { return Err(metadataValue.fault); }
    var metadata := DecodeMetadata(metadataValue.value, "/metadata");
    if metadata.Err? { return Err(metadata.fault); }
    var specValue := Required(root, "spec", "");
    if specValue.Err? { return Err(specValue.fault); }
    var spec := DecodeSpec(head.value.1, specValue.value, "/spec");
    if spec.Err? { return Err(spec.fault); }
    return Ok(Intent(head.value.0, head.value.1, metadata.value, spec.value));
  }

  /** The decoding half of schemaStatus. */
  method DecodeStatusDocument(ghost clock: Clock, value: Value) returns (r: Result<Status>)
    ensures r.Err? ==> r.fault in StatusDocumentFaults(clock, value)
    ensures r.Ok? ==> StatusDocumentMatches(r.value, value)
  {
    hide Fault, Append, NameFaults, RequiredFaults, UnknownFaults, VersionFaults, KindFaults, KindOf, StatusFaults,
         StatusMatches;
    if !value.Object? { return Err(Fault(INVALID_TYPE, "")); }
    var root := value.members;
    Covers(root, STATUS_FIELDS, STATUS_FIELDS, 0, "");
    Covers(root, STATUS_FIELDS, STATUS_FIELDS, 1, "");
    Covers(root, STATUS_FIELDS, STATUS_FIELDS, 2, "");
    var unknown := RejectUnknown(root, "", STATUS_FIELDS);
    if unknown.Some? { return Err(unknown.value); }
    var head := DecodeHead(root);
    if head.Err? { return Err(head.fault); }
    var statusValue := Required(root, "status", "");
    if statusValue.Err? { return Err(statusValue.fault); }
    var data := DecodeStatus(clock, head.value.1, statusValue.value, "/status");
    if data.Err? { return Err(data.fault); }
    return Ok(Status(head.value.0, head.value.1, data.value));
  }

  /** schemaIntent: a typed intent exactly when nothing was collected, and the least collected fault otherwise. */
  method SchemaIntent(value: Value, duplicates: CandidateSet) returns (r: Result<Intent>)
    requires duplicates.Valid()
    ensures r.Ok? <==> duplicates.faults + IntentFaults(value) == {}
    ensures r.Ok? ==> IntentMatches(r.value, value)
    ensures r.Err? ==> IsLeast(Some(r.fault), duplicates.faults + IntentFaults(value))
  {
    hide IntentFaults, IntentMatches, CandidateSet.Valid;
    var failure := ValidateIntentSchema(value, duplicates);
    if failure.Some? { return Err(failure.value); }
    r := DecodeIntent(value);
  }

  /** schemaStatus. */
  method SchemaStatus(clock: Clock, value: Value, duplicates: CandidateSet) returns (r: Result<Status>)
    requires duplicates.Valid()
    ensures r.Ok? <==> duplicates.faults + StatusDocumentFaults(clock, value) == {}
    ensures r.Ok? ==> StatusDocumentMatches(r.value, value)
    ensures r.Err? ==> IsLeast(Some(r.fault), duplicates.faults + StatusDocumentFaults(clock, value))
  {
    hide StatusDocumentFaults, StatusDocumentMatches, CandidateSet.Valid;
    var failure := ValidateStatusSchema(clock, value, duplicates);
    if failure.Some? { return Err(failure.value); }
    r := DecodeStatusDocument(clock, value);
  }
}
