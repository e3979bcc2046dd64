/** The collectors: they walk a value and add every fault to one candidate set, in any order of map members. */
module SchemaCollect {
  import opened Hierarchy
  import opened Wrappers
  import opened Pointer
  import opened Candidates
  import opened SchemaFaults
  import Number

  /** The faults added are just these. */
  twostate predicate Adds(found: CandidateSet, faults: set<Candidate>)
    reads found
  {
    found.Valid() && found.faults == old(found.faults) + faults
  }

  method AddIf(found: CandidateSet, holds: bool, code: string, path: string)
    requires found.Valid()
    modifies found
    ensures Adds(found, One(holds, code, path))
  {
    if holds { found.Add(code, path); }
  }

  method CollectRequired(found: CandidateSet, obj: Members, required: seq<string>, path: string)
    requires found.Valid()
    modifies found
    ensures Adds(found, RequiredFaults(obj, required, path))
  {
    hide CandidateSet.Valid, Append, Fault;
    for i := 0 to |required|
      invariant Adds(found, RequiredFaults(obj, required[..i], path))
    {
      var name := required[i];
      assert required[..i + 1][..i] == required[..i];
      var member := AppendPointer(path, name);
      if name !in obj {
        found.Add(MISSING_FIELD, member);
      } else if obj[name].Null? {
        found.Add(INVALID_TYPE, member);
      }
    }
    assert required[..|required|] == required;
  }

  /** The unknown members outside a set of names still to be looked at. */
  function UnknownBut(obj: Members, names: set<string>, allowed: seq<string>, path: string): set<Candidate> {
    set name | name in obj && name !in names && name !in allowed :: Fault(UNKNOWN_FIELD, Append(path, name))
  }

  lemma UnknownMore(obj: Members, names: set<string>, name: string, allowed: seq<string>, path: string)
    requires name in names && names <= obj.Keys
    ensures UnknownBut(obj, names - {name}, allowed, path) ==
            UnknownBut(obj, names, allowed, path) + One(name !in allowed, UNKNOWN_FIELD, Append(path, name))
  {
    hide CandidateSet.Valid, Append, Fault;
  }

  lemma UnknownEnds(obj: Members, allowed: seq<string>, path: string)
    ensures UnknownBut(obj, obj.Keys, allowed, path) == {}
    ensures UnknownBut(obj, {}, allowed, path) == UnknownFaults(obj, allowed, path)
  {
  }

  /** Every member that is not allowed, taken in any order. */
  method CollectUnknown(found: CandidateSet, obj: Members, allowed: seq<string>, path: string)
    requires found.Valid()
    modifies found
    ensures Adds(found, UnknownFaults(obj, allowed, path))
  {
    UnknownEnds(obj, allowed, path);
    hide CandidateSet.Valid, Append, Fault, UnknownBut, UnknownFaults;
    var names := obj.Keys;
    while names != {}
      invariant names <= obj.Keys
      invariant Adds(found, UnknownBut(obj, names, allowed, path))
      decreases |names|
    {
      var name :| name in names;
      UnknownMore(obj, names, name, allowed, path);
      names := names - {name};
      if name !in allowed {
        var member := AppendPointer(path, name);
        found.Add(UNKNOWN_FIELD, member);
      }
    }
  }

  /** collectObject. */
  method CollectObject(found: CandidateSet, value: Value, path: string, required: seq<string>, allowed: seq<string>)
    returns (obj: Option<Members>)
    requires found.Valid()
    modifies found
    ensures obj == if value.Object? then Some(value.members) else None
    ensures Adds(found, if value.Object? then ObjectFaults(value.members, required, allowed, path)
                        else {Fault(INVALID_TYPE, path)})
  {
    hide CandidateSet.Valid, RequiredFaults, UnknownFaults, Fault;
    if !value.Object? {
      found.Add(INVALID_TYPE, path);
      return None;
    }
    CollectRequired(found, value.members, required, path);
    CollectUnknown(found, value.members, allowed, path);
    return Some(value.members);
  }

  /** collectString. */
  method CollectString(found: CandidateSet, obj: Members, name: string, path: string) returns (text: Option<string>)
    requires found.Valid()
    modifies found
    ensures text == if HasText(obj, name) then Some(obj[name].text) else None
    ensures Adds(found, TextFaults(obj, name, path))
  {
    hide CandidateSet.Valid, Append, Fault;
    if name !in obj || obj[name].Null? { return None; }
    if !obj[name].Text? {
      var member := AppendPointer(path, name);
      found.Add(INVALID_TYPE, member);
      return None;
    }
    return Some(obj[name].text);
  }

  /** A string member and one check of it: collectPatternString, collectTimestamp and the inline checks. */
  method CollectChecked(found: CandidateSet, obj: Members, name: string, path: string, ok: string -> bool)
    returns (text: Option<string>)
    requires found.Valid()
    modifies found
    ensures text == if HasText(obj, name) then Some(obj[name].text) else None
    ensures Adds(found, CheckedFaults(obj, name, path, ok))
  {
    hide CandidateSet.Valid, Append, Fault;
    text := CollectString(found, obj, name, path);
    if text.Some? && !ok(text.value) {
      var member := AppendPointer(path, name);
      found.Add(INVALID_VALUE, member);
    }
  }

  /** collectNonNegativeInt64. */
  method CollectNonNegativeInt64(found: CandidateSet, obj: Members, name: string, path: string)
    requires found.Valid()
    modifies found
    ensures Adds(found, NumberFaults(obj, name, path))
  {
    hide CandidateSet.Valid, Append, Fault, Number.Yields;
    if name !in obj || obj[name].Null? { return; }
    var member := AppendPointer(path, name);
    if !obj[name].Num? {
      found.Add(INVALID_TYPE, member);
      return;
    }
    var parsed := Number.NonNegativeInt64(obj[name].text);
    ParsedExactly(obj[name].text, parsed);
    if parsed.None? {
      found.Add(INVALID_VALUE, member);
    }
  }

  lemma ParsedExactly(text: string, parsed: Option<Number.Int64>)
    requires parsed.Some? ==> parsed.value >= 0
    requires forall v: int | 0 <= v <= Number.MAX_INT64 :: Number.Reported(parsed) == Some(v) <==>
             Number.Yields(text, v)
    ensures parsed.Some? <==> Int64Text(text)
    ensures parsed.Some? ==> Number.Yields(text, parsed.value as int)
  {
    if parsed.Some? {
      assert Number.Reported(parsed) == Some(parsed.value as int);
    }
    if Int64Text(text) {
      var v :| Number.Yields(text, v);
    }
  }

  /** collectOptionalDecimal: whether the member is there at all. */
  method CollectOptionalDecimal(found: CandidateSet, obj: Members, name: string, path: string) returns (present: bool)
    requires found.Valid()
    modifies found
    ensures present == (name in obj)
    ensures Adds(found, DecimalFaults(obj, name, path))
  {
    hide CandidateSet.Valid, Append, Fault, DecimalOk;
    if name !in obj { return false; }
    var member := AppendPointer(path, name);
    if !obj[name].Text? {
      found.Add(INVALID_TYPE, member);
    } else if !DecimalOk(obj[name].text) {
      found.Add(INVALID_VALUE, member);
    }
    return true;
  }

  // ----- Intent

  function LabelsBut(labels: Members, names: set<string>, path: string): set<Candidate> {
    set name, f | name in labels && name !in names && f in LabelFaults(name, labels[name], path) :: f
  }

  lemma LabelsMore(labels: Members, names: set<string>, name: string, path: string)
    requires name in names && names <= labels.Keys
    ensures LabelsBut(labels, names - {name}, path) == LabelsBut(labels, names, path)
            + LabelFaults(name, labels[name], path)
  {
    hide CandidateSet.Valid, LabelFaults;
  }

  lemma LabelsEnd(value: Value, path: string)
    ensures !value.Object? ==> LabelsFaults(value, path) == {Fault(INVALID_TYPE, path)}
    ensures value.Object? ==> LabelsBut(value.members, value.members.Keys, path) == {}
    ensures value.Object? ==> LabelsFaults(value, path) ==
                              One(|value.members| > 64, INVALID_VALUE, path) + LabelsBut(value.members, {}, path)
  {
    hide CandidateSet.Valid, LabelFaults;
  }

  method CollectLabel(found: CandidateSet, name: string, item: Value, path: string)
    requires found.Valid()
    modifies found
    ensures Adds(found, LabelFaults(name, item, path))
  {
    hide CandidateSet.Valid, Append, Fault, NamePattern;
    var member := AppendPointer(path, name);
    if !NamePattern(name, 62) {
      found.Add(INVALID_VALUE, member);
    }
    if !item.Text? {
      found.Add(INVALID_TYPE, member);
    } else if |item.text| > 256 {
      found.Add(INVALID_VALUE, member);
    }
  }

  method CollectLabels(found: CandidateSet, value: Value, path: string)
    requires found.Valid()
    modifies found
    ensures Adds(found, LabelsFaults(value, path))
  {
    LabelsEnd(value, path);
    hide CandidateSet.Valid, LabelFaults, Fault, LabelsBut, LabelsFaults, One;
    if !value.Object? {
      found.Add(INVALID_TYPE, path);
      return;
    }
    var labels := value.members;
    AddIf(found, |labels| > 64, INVALID_VALUE, path);
    var names := labels.Keys;
    while names != {}
      invariant names <= labels.Keys
      invariant Adds(found, One(|labels| > 64, INVALID_VALUE, path) + LabelsBut(labels, names, path))
      decreases |names|
    {
      var name :| name in names;
      LabelsMore(labels, names, name, path);
      names := names - {name};
      CollectLabel(found, name, labels[name], path);
    }
  }

  /** collectMetadataSchema. */
  method CollectMetadata(found: CandidateSet, value: Value, path: string)
    requires found.Valid()
    modifies found
    ensures Adds(found, MetadataFaults(value, path))
  {
    hide CandidateSet.Valid, ObjectFaults, CheckedFaults, LabelsFaults, Fault, Append;
    var read := CollectObject(found, value, path, METADATA_REQUIRED, METADATA_ALLOWED);
    if read.None? { return; }
    var obj := read.value;
    var _ := CollectChecked(found, obj, "displayName", path, DisplayNameCheck());
    if "labels" in obj {
      var labels := AppendPointer(path, "labels");
      CollectLabels(found, obj["labels"], labels);
    }
  }

  method CollectWorkspaceSpec(found: CandidateSet, value: Value, path: string)
    requires found.Valid()
    modifies found
    ensures Adds(found, WorkspaceSpecFaults(value, path))
  {
    hide CandidateSet.Valid, ObjectFaults, Fault, Append;
    var read := CollectObject(found, value, path, [], WORKSPACE_ALLOWED);
    if read.None? { return; }
    var obj := read.value;
    var member := AppendPointer(path, "suspendReconciliation");
    AddIf(found, "suspendReconciliation" in obj && !obj["suspendReconciliation"].Bool?, INVALID_TYPE, member);
  }

  method CollectScopeKind(found: CandidateSet, obj: Members, path: string) returns (kind: Option<ScopeKind>)
    requires found.Valid()
    modifies found
    ensures kind == ScopeKindOf(obj)
    ensures Adds(found, ScopeKindFaults(obj, path))
  {
    hide CandidateSet.Valid, TextFaults, Fault, Append, ParseScopeKind;
    var text := CollectString(found, obj, "kind", path);
    kind := if text.Some? then ParseScopeKind(text.value) else None;
    if text.Some? && kind.None? {
      var kindPath := AppendPointer(path, "kind");
      found.Add(INVALID_VALUE, kindPath);
    }
  }

  method CollectEnvironment(found: CandidateSet, obj: Members, kind: Option<ScopeKind>, path: string)
    requires found.Valid() && kind == ScopeKindOf(obj)
    modifies found
    ensures Adds(found, EnvironmentFaults(obj, path))
  {
    hide CandidateSet.Valid, CheckedFaults, One, Append, IdCheck, ScopeKindOf;
    var environment := AppendPointer(path, "environmentId");
    AddIf(found, "environmentId" in obj && obj["environmentId"].Null?, INVALID_TYPE, environment);
    var _ := CollectChecked(found, obj, "environmentId", path, IdCheck());
    AddIf(found, kind == Some(WorkspaceScope) && "environmentId" in obj, INVALID_VALUE, environment);
    AddIf(found, kind == Some(EnvironmentScope) && "environmentId" !in obj, MISSING_FIELD, environment);
  }

  /** collectPolicyScopeSchema. */
  method CollectScope(found: CandidateSet, value: Value, path: string)
    requires found.Valid()
    modifies found
    ensures Adds(found, ScopeFaults(value, path))
  {
    hide CandidateSet.Valid, ObjectFaults, ScopeKindFaults, EnvironmentFaults, Fault;
    var read := CollectObject(found, value, path, SCOPE_REQUIRED, SCOPE_ALLOWED);
    if read.None? { return; }
    var kind := CollectScopeKind(found, read.value, path);
    CollectEnvironment(found, read.value, kind, path);
  }

  method CollectBinding(found: CandidateSet, value: Value, path: string)
    requires found.Valid()
    modifies found
    ensures Adds(found, BindingFaults(value, path))
  {
    hide CandidateSet.Valid, ObjectFaults, CheckedFaults, ScopeFaults, Fault, Append, IdCheck, OneOf;
    var read := CollectObject(found, value, path, BINDING_FIELDS, BINDING_FIELDS);
    if read.None? { return; }
    var obj := read.value;
    var _ := CollectChecked(found, obj, "memberId", path, IdCheck());
    var _ := CollectChecked(found, obj, "role", path, OneOf(ROLES));
    if "scope" !in obj || obj["scope"].Null? { return; }
    var scope := AppendPointer(path, "scope");
    CollectScope(found, obj["scope"], scope);
  }

  method CollectBindings(found: CandidateSet, items: seq<Value>, path: string)
    requires found.Valid()
    modifies found
    ensures Adds(found, BindingsFaults(items, path))
  {
    hide CandidateSet.Valid, BindingFaults, Append;
    for i := 0 to |items|
      invariant Adds(found, BindingsFaults(items[..i], path))
    {
      assert items[..i + 1][..i] == items[..i];
      var item := AppendPointer(path, Number.Decimal(i));
      CollectBinding(found, items[i], item);
    }
    assert items[..|items|] == items;
  }

  /** collectPolicySpecSchema. */
  method CollectPolicySpec(found: CandidateSet, value: Value, path: string)
    requires found.Valid()
    modifies found
    ensures Adds(found, PolicySpecFaults(value, path))
  {
    hide CandidateSet.Valid, ObjectFaults, BindingsFaults, Fault, Append;
    var read := CollectObject(found, value, path, POLICY_FIELDS, POLICY_FIELDS);
    if read.None? { return; }
    var obj := read.value;
    if "bindings" !in obj || obj["bindings"].Null? { return; }
    var bindings := AppendPointer(path, "bindings");
    if !obj["bindings"].List? {
      found.Add(INVALID_TYPE, bindings);
      return;
    }
    AddIf(found, |obj["bindings"].items| > MAX_BINDINGS, INVALID_VALUE, bindings);
    CollectBindings(found, obj["bindings"].items, bindings);
  }

  method CollectReference(found: CandidateSet, value: Value, path: string)
    requires found.Valid()
    modifies found
    ensures Adds(found, ReferenceFaults(value, path))
  {
    hide CandidateSet.Valid, ObjectFaults, CheckedFaults, Fault, ReferenceCheck, VersionCheck;
    var read := CollectObject(found, value, path, REFERENCE_FIELDS, REFERENCE_FIELDS);
    if read.None? { return; }
    var _ := CollectChecked(found, read.value, "referenceId", path, ReferenceCheck());
    var _ := CollectChecked(found, read.value, "version", path, VersionCheck());
  }

  /** collectProviderSpecSchema. */
  method CollectProviderSpec(found: CandidateSet, value: Value, path: string)
    requires found.Valid()
    modifies found
    ensures Adds(found, ProviderSpecFaults(value, path))
  {
    hide CandidateSet.Valid, ObjectFaults, CheckedFaults, ReferenceFaults, Fault, Append, ProviderCheck;
    var read := CollectObject(found, value, path, PROVIDER_FIELDS, PROVIDER_FIELDS);
    if read.None? { return; }
    var obj := read.value;
    var _ := CollectChecked(found, obj, "provider", path, ProviderCheck());
    if "credentialRef" !in obj { return; }
    var reference := AppendPointer(path, "credentialRef");
    CollectReference(found, obj["credentialRef"], reference);
  }

  /** collectIntentSpecSchema. */
  method CollectIntentSpec(found: CandidateSet, kind: Kind, value: Value, path: string)
    requires found.Valid()
    modifies found
    ensures Adds(found, SpecFaults(kind, value, path))
  {
    hide CandidateSet.Valid, ObjectFaults, WorkspaceSpecFaults, PolicySpecFaults, ProviderSpecFaults, Fault;
    match kind
    case Workspace => CollectWorkspaceSpec(found, value, path);
    case Policy => CollectPolicySpec(found, value, path);
    case ProviderConnection => CollectProviderSpec(found, value, path);
    case _ => var _ := CollectObject(found, value, path, [], []);
  }

  // ----- Status

  method CollectCondition(found: CandidateSet, clock: Clock, value: Value, path: string)
    requires found.Valid()
    modifies found
    ensures Adds(found, ConditionFaults(clock, value, path))
  {
    hide CandidateSet.Valid, ObjectFaults, CheckedFaults, NumberFaults, Fault, WordCheck, OneOf, MessageCheck;
    var read := CollectObject(found, value, path, CONDITION_FIELDS, CONDITION_FIELDS);
    if read.None? { return; }
    var obj := read.value;
    var _ := CollectChecked(found, obj, "type", path, WordCheck());
    var _ := CollectChecked(found, obj, "status", path, OneOf(STATUSES));
    var _ := CollectChecked(found, obj, "reason", path, WordCheck());
    var _ := CollectChecked(found, obj, "message", path, MessageCheck());
    CollectNonNegativeInt64(found, obj, "observedGeneration", path);
    var _ := CollectChecked(found, obj, "lastTransitionAt", path, clock);
  }

  method CollectOrigin(found: CandidateSet, clock: Clock, obj: Members, path: string)
    requires found.Valid()
    modifies found
    ensures Adds(found, OriginFaults(clock, obj, path))
  {
    hide CandidateSet.Valid, CheckedFaults, SourceCheck, WordCheck;
    var _ := CollectChecked(found, obj, "source", path, SourceCheck());
    var _ := CollectChecked(found, obj, "observedAt", path, clock);
    var _ := CollectChecked(found, obj, "reason", path, WordCheck());
  }

  method CollectCapability(found: CandidateSet, clock: Clock, value: Value, path: string)
    requires found.Valid()
    modifies found
    ensures Adds(found, CapabilityFaults(clock, value, path))
  {
    hide CandidateSet.Valid, ObjectFaults, CheckedFaults, Fault, ObservationCheck, OneOf, OriginFaults;
    var read := CollectObject(found, value, path, CAPABILITY_FIELDS, CAPABILITY_FIELDS);
    if read.None? { return; }
    var obj := read.value;
    var _ := CollectChecked(found, obj, "name", path, ObservationCheck());
    var _ := CollectChecked(found, obj, "state", path, OneOf(CAPABILITY_STATES));
    CollectOrigin(found, clock, obj, path);
  }

  method CollectAmounts(found: CandidateSet, obj: Members, state: Option<string>, requested: bool, available: bool,
                        path: string)
    requires found.Valid() && state == (if HasText(obj, "state") then Some(obj["state"].text) else None)
    requires requested == ("requested" in obj) && available == ("available" in obj)
    modifies found
    ensures Adds(found, AmountFaults(obj, path))
  {
    hide CandidateSet.Valid, Fault, Append;
    if state.None? { return; }
    var statePath := AppendPointer(path, "state");
    AddIf(found, state.value == "Unknown" && (requested || available), INVALID_VALUE, statePath);
    if state.value == "WithinLimit" || state.value == "Exceeded" {
      var availablePath := AppendPointer(path, "available");
      AddIf(found, !available, MISSING_FIELD, availablePath);
      var requestedPath := AppendPointer(path, "requested");
      AddIf(found, !requested, MISSING_FIELD, requestedPath);
    }
  }

  method CollectQuota(found: CandidateSet, clock: Clock, value: Value, path: string)
    requires found.Valid()
    modifies found
    ensures Adds(found, QuotaFaults(clock, value, path))
  {
    hide CandidateSet.Valid, ObjectFaults, CheckedFaults, DecimalFaults, AmountFaults, Fault, ObservationCheck, OneOf,
         OriginFaults;
    var read := CollectObject(found, value, path, CAPABILITY_FIELDS, QUOTA_FIELDS);
    if read.None? { return; }
    var obj := read.value;
    var _ := CollectChecked(found, obj, "name", path, ObservationCheck());
    var state := CollectChecked(found, obj, "state", path, OneOf(QUOTA_STATES));
    var requested := CollectOptionalDecimal(found, obj, "requested", path);
    var available := CollectOptionalDecimal(found, obj, "available", path);
    CollectAmounts(found, obj, state, requested, available, path);
    CollectOrigin(found, clock, obj, path);
  }

  method CollectEntries(found: CandidateSet, clock: Clock, entry: Entry, items: seq<Value>, path: string)
    requires found.Valid()
    modifies found
    ensures Adds(found, EntriesFaults(clock, entry, items, path))
  {
    hide CandidateSet.Valid, ConditionFaults, CapabilityFaults, QuotaFaults, Append;
    for i := 0 to |items|
      invariant Adds(found, EntriesFaults(clock, entry, items[..i], path))
    {
      assert items[..i + 1][..i] == items[..i];
      var item := AppendPointer(path, Number.Decimal(i));
      match entry
      case Conditions => CollectCondition(found, clock, items[i], item);
      case Capabilities => CollectCapability(found, clock, items[i], item);
      case Quotas => CollectQuota(found, clock, items[i], item);
    }
    assert items[..|items|] == items;
  }

  /** collectConditionsSchema, collectCapabilitiesSchema and collectQuotasSchema. */
  method CollectList(found: CandidateSet, clock: Clock, entry: Entry, value: Value, path: string)
    requires found.Valid()
    modifies found
    ensures Adds(found, ListFaults(clock, entry, value, path))
  {
    hide CandidateSet.Valid, EntriesFaults, Fault;
    if !value.List? {
      found.Add(INVALID_TYPE, path);
      return;
    }
    AddIf(found, |value.items| > Limit(entry), INVALID_VALUE, path);
    CollectEntries(found, clock, entry, value.items, path);
  }

  method CollectMemberList(found: CandidateSet, clock: Clock, entry: Entry, obj: Members, name: string, path: string)
    requires found.Valid()
    modifies found
    ensures Adds(found, MemberListFaults(clock, entry, obj, name, path))
  {
    hide CandidateSet.Valid, ListFaults, Append;
    if name in obj {
      var list := AppendPointer(path, name);
      CollectList(found, clock, entry, obj[name], list);
    }
  }

  /** collectStatusSchema. */
  method CollectStatus(found: CandidateSet, clock: Clock, kind: Kind, value: Value, path: string)
    requires found.Valid()
    modifies found
    ensures Adds(found, StatusFaults(clock, kind, value, path))
  {
    hide CandidateSet.Valid, ObjectFaults, NumberFaults, MemberListFaults, StatusFields, Fault;
    var read := CollectObject(found, value, path, StatusFields(kind), StatusFields(kind));
    if read.None? { return; }
    CollectNonNegativeInt64(found, read.value, "observedGeneration", path);
    CollectMemberList(found, clock, Conditions, read.value, "conditions", path);
    if !kind.ProviderConnection? { return; }
    CollectMemberList(found, clock, Capabilities, read.value, "capabilities", path);
    CollectMemberList(found, clock, Quotas, read.value, "quotaChecks", path);
  }

  // ----- Documents

  method CollectHead(found: CandidateSet, root: Members) returns (kind: Option<Kind>)
    requires found.Valid()
    modifies found
    ensures kind == KindOf(root)
    ensures Adds(found, VersionFaults(root) + KindFaults(root))
  {
    hide CandidateSet.Valid, TextFaults, Fault, ParseKind;
    var version := CollectString(found, root, "apiVersion", "");
    AddIf(found, version.Some? && version.value != API_VERSION, UNSUPPORTED_VERSION, "/apiVersion");
    var text := CollectString(found, root, "kind", "");
    kind := if text.Some? then ParseKind(text.value) else None;
    AddIf(found, text.Some? && kind.None?, UNSUPPORTED_KIND, "/kind");
  }

  /** validateIntentSchema: the least of the duplicate members found earlier and of every schema fault. */
  method ValidateIntentSchema(value: Value, duplicates: CandidateSet) returns (failure: Option<Candidate>)
    requires duplicates.Valid()
    ensures IsLeast(failure, duplicates.faults + IntentFaults(value))
  {
    hide IntentFaults, AtMost, Bounded;
    var found := new CandidateSet.Copy(duplicates);
    CollectIntent(found, value);
    failure := found.Failure();
  }

  method CollectIntent(found: CandidateSet, value: Value)
    requires found.Valid()
    modifies found
    ensures Adds(found, IntentFaults(value))
  {
    hide CandidateSet.Valid, ObjectFaults, VersionFaults, KindFaults, MetadataFaults, SpecFaults, KindOf, Fault;
    var read := CollectObject(found, value, "", INTENT_FIELDS, INTENT_FIELDS);
    if read.None? { return; }
    var root := read.value;
    var kind := CollectHead(found, root);
    if "metadata" in root {
      CollectMetadata(found, root["metadata"], "/metadata");
    }
    if "spec" in root && kind.Some? {
      CollectIntentSpec(found, kind.value, root["spec"], "/spec");
    }
  }

  /** validateStatusSchema. */
  method ValidateStatusSchema(clock: Clock, value: Value, duplicates: CandidateSet) returns (failure: Option<Candidate>)
    requires duplicates.Valid()
    ensures IsLeast(failure, duplicates.faults + StatusDocumentFaults(clock, value))
  {
    hide StatusDocumentFaults, AtMost, Bounded;
    var found := new CandidateSet.Copy(duplicates);
    CollectStatusDocument(found, clock, value);
    failure := found.Failure();
  }

  method CollectStatusDocument(found: CandidateSet, clock: Clock, value: Value)
    requires found.Valid()
    modifies found
    ensures Adds(found, StatusDocumentFaults(clock, value))
  {
    hide CandidateSet.Valid, ObjectFaults, VersionFaults, KindFaults, StatusFaults, KindOf, Fault;
    var read := CollectObject(found, value, "", STATUS_FIELDS, STATUS_FIELDS);
    if read.None? { return; }
    var root := read.value;
    var kind := CollectHead(found, root);
    if "status" in root && kind.Some? {
      CollectStatus(found, clock, kind.value, root["status"], "/status");
    }
  }
}
