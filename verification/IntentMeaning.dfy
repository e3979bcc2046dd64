/** What the intent schema accepts: exactly the encodings of well-formed typed intents, and decoding undoes encoding.

    The typed documents and their encoding know nothing of faults. */
module IntentMeaning {
  import opened Hierarchy
  import opened Wrappers
  import opened Pointer
  import opened Candidates
  import opened SchemaFaults
  import opened SchemaCollect
  import opened SchemaDecode
  import Number

  // ----- Objects without faults

  /** The members named are there and not null, and there are no others but the optional ones. */
  ghost predicate Shaped(obj: Members, required: set<string>, optional: set<string>) {
    required <= obj.Keys <= required + optional && forall name | name in required :: !obj[name].Null?
  }

  function NamesOf(names: seq<string>): set<string> {
    set i | 0 <= i < |names| :: names[i]
  }

  lemma ShapedHas(obj: Members, required: set<string>, optional: set<string>, name: string)
    requires name in required
    ensures Shaped(obj, required, optional) ==> Has(obj, name)
  {
  }

  lemma Neither(a: set<Candidate>, b: set<Candidate>)
    ensures a + b == {} <==> a == {} && b == {}
  {
    if a != {} {
      var f :| f in a;
      assert f in a + b;
    }
    if b != {} {
      var f :| f in b;
      assert f in a + b;
    }
  }

  lemma NoOne(holds: bool, code: string, path: string)
    ensures One(holds, code, path) == {} <==> !holds
  {
    assert holds ==> Fault(code, path) in One(holds, code, path);
  }

  lemma NoNameFaults(obj: Members, name: string, path: string)
    ensures NameFaults(obj, name, path) == {} <==> Has(obj, name)
  {
    hide Append;
    NoOne(name !in obj, MISSING_FIELD, Append(path, name));
    NoOne(name in obj && obj[name].Null?, INVALID_TYPE, Append(path, name));
    hide One;
  }

  lemma {:induction false} NoRequiredFaults(obj: Members, required: seq<string>, path: string)
    ensures RequiredFaults(obj, required, path) == {} <==>
            forall i :: 0 <= i < |required| ==> Has(obj, required[i])
  {
    hide NameFaults, Has;
    if required != [] {
      NoRequiredFaults(obj, required[..|required| - 1], path);
      NoNameFaults(obj, required[|required| - 1], path);
    }
  }

  lemma NoUnknownFaults(obj: Members, allowed: seq<string>, path: string)
    ensures UnknownFaults(obj, allowed, path) == {} <==> forall name | name in obj :: name in allowed
  {
    hide Append;
    forall name | name in obj && name !in allowed
      ensures UnknownFaults(obj, allowed, path) != {}
    {
      assert Fault(UNKNOWN_FIELD, Append(path, name)) in UnknownFaults(obj, allowed, path);
    }
  }

  /** An object has no faults of its own exactly when it has the right members. */
  lemma NoObjectFaults(obj: Members, required: seq<string>, allowed: seq<string>, optional: set<string>, path: string)
    requires NamesOf(allowed) == NamesOf(required) + optional
    ensures ObjectFaults(obj, required, allowed, path) == {} <==> Shaped(obj, NamesOf(required), optional)
  {
    hide RequiredFaults, UnknownFaults;
    NoRequiredFaults(obj, required, path);
    NoUnknownFaults(obj, allowed, path);
    forall name
      ensures name in NamesOf(allowed) <==> name in allowed
      ensures name in NamesOf(required) <==> name in required
    {
    }
    if forall i :: 0 <= i < |required| ==> Has(obj, required[i]) {
      forall name | name in NamesOf(required)
        ensures name in obj && !obj[name].Null?
      {
        var i :| 0 <= i < |required| && required[i] == name;
        assert Has(obj, required[i]);
      }
    }
    if Shaped(obj, NamesOf(required), optional) {
      forall i | 0 <= i < |required|
        ensures Has(obj, required[i])
      {
        assert required[i] in NamesOf(required);
      }
    }
  }

  /** A member that is a text with this property, or absent. */
  predicate TextIf(obj: Members, name: string, ok: string -> bool) {
    Has(obj, name) ==> obj[name].Text? && ok(obj[name].text)
  }

  /** The text of a member, or none. */
  function TextOf(obj: Members, name: string): string {
    if HasText(obj, name) then obj[name].text else ""
  }

  lemma TextIsAt(obj: Members, name: string, ok: string -> bool)
    requires Has(obj, name) && TextIf(obj, name, ok)
    ensures TextAt(obj, name, TextOf(obj, name)) && ok(TextOf(obj, name))
  {
  }

  lemma TextIfAt(obj: Members, name: string, text: string, ok: string -> bool)
    requires TextAt(obj, name, text)
    ensures TextIf(obj, name, ok) <==> ok(text)
  {
  }

  lemma OneOfExactly(words: seq<string>, text: string)
    ensures OneOf(words)(text) <==> text in words
  {
  }

  lemma NoCheckedFaults(obj: Members, name: string, path: string, ok: string -> bool)
    ensures CheckedFaults(obj, name, path, ok) == {} <==> TextIf(obj, name, ok)
    ensures TextFaults(obj, name, path) == {} <==> (Has(obj, name) ==> obj[name].Text?)
  {
    hide Append;
    NoOne(Has(obj, name) && !obj[name].Text?, INVALID_TYPE, Append(path, name));
    NoOne(HasText(obj, name) && !ok(obj[name].text), INVALID_VALUE, Append(path, name));
    hide One;
  }

  // The members of each kind of object.

  lemma MetadataFields(obj: Members, path: string)
    ensures ObjectFaults(obj, METADATA_REQUIRED, METADATA_ALLOWED, path) == {} <==>
            Shaped(obj, {"displayName"}, {"labels"})
  {
    assert METADATA_REQUIRED[0] == "displayName" && METADATA_ALLOWED[0] == "displayName"
           && METADATA_ALLOWED[1] == "labels";
    hide ObjectFaults;
    NoObjectFaults(obj, METADATA_REQUIRED, METADATA_ALLOWED, {"labels"}, path);
  }

  lemma ScopeFields(obj: Members, path: string)
    ensures ObjectFaults(obj, SCOPE_REQUIRED, SCOPE_ALLOWED, path) == {} <==> Shaped(obj, {"kind"}, {"environmentId"})
  {
    assert SCOPE_REQUIRED[0] == "kind" && SCOPE_ALLOWED[0] == "kind" && SCOPE_ALLOWED[1] == "environmentId";
    hide ObjectFaults;
    NoObjectFaults(obj, SCOPE_REQUIRED, SCOPE_ALLOWED, {"environmentId"}, path);
  }

  lemma BindingFields(obj: Members, path: string)
    ensures ObjectFaults(obj, BINDING_FIELDS, BINDING_FIELDS, path) == {} <==>
            Shaped(obj, {"memberId", "role", "scope"}, {})
  {
    assert BINDING_FIELDS[0] == "memberId" && BINDING_FIELDS[1] == "role" && BINDING_FIELDS[2] == "scope";
    hide ObjectFaults;
    NoObjectFaults(obj, BINDING_FIELDS, BINDING_FIELDS, {}, path);
  }

  lemma PolicyFields(obj: Members, path: string)
    ensures ObjectFaults(obj, POLICY_FIELDS, POLICY_FIELDS, path) == {} <==> Shaped(obj, {"bindings"}, {})
  {
    assert POLICY_FIELDS[0] == "bindings";
    hide ObjectFaults;
    NoObjectFaults(obj, POLICY_FIELDS, POLICY_FIELDS, {}, path);
  }

  lemma ReferenceFields(obj: Members, path: string)
    ensures ObjectFaults(obj, REFERENCE_FIELDS, REFERENCE_FIELDS, path) == {} <==>
            Shaped(obj, {"referenceId", "version"}, {})
  {
    assert REFERENCE_FIELDS[0] == "referenceId" && REFERENCE_FIELDS[1] == "version";
    hide ObjectFaults;
    NoObjectFaults(obj, REFERENCE_FIELDS, REFERENCE_FIELDS, {}, path);
  }

  lemma ProviderFields(obj: Members, path: string)
    ensures ObjectFaults(obj, PROVIDER_FIELDS, PROVIDER_FIELDS, path) == {} <==>
            Shaped(obj, {"provider", "credentialRef"}, {})
  {
    assert PROVIDER_FIELDS[0] == "provider" && PROVIDER_FIELDS[1] == "credentialRef";
    hide ObjectFaults;
    NoObjectFaults(obj, PROVIDER_FIELDS, PROVIDER_FIELDS, {}, path);
  }

  lemma IntentFields(obj: Members, path: string)
    ensures ObjectFaults(obj, INTENT_FIELDS, INTENT_FIELDS, path) == {} <==>
            Shaped(obj, {"apiVersion", "kind", "metadata", "spec"}, {})
  {
    assert INTENT_FIELDS[0] == "apiVersion" && INTENT_FIELDS[1] == "kind" && INTENT_FIELDS[2] == "metadata"
           && INTENT_FIELDS[3] == "spec";
    hide ObjectFaults;
    NoObjectFaults(obj, INTENT_FIELDS, INTENT_FIELDS, {}, path);
  }

  // ----- Metadata

  predicate LabelsOk(labels: map<string, string>) {
    |labels| <= 64 && forall name | name in labels :: NamePattern(name, 62) && |labels[name]| <= 256
  }

  predicate MetadataOk(m: Metadata) {
    1 <= |m.displayName| <= 128 && (m.labels.Some? ==> LabelsOk(m.labels.value))
  }

  function EncodeLabels(labels: map<string, string>): Value {
    Object(map name | name in labels :: Text(labels[name]))
  }

  function EncodeMetadata(m: Metadata): Value {
    Object(if m.labels.Some? then map["displayName" := Text(m.displayName), "labels" := EncodeLabels(m.labels.value)]
           else map["displayName" := Text(m.displayName)])
  }

  ghost predicate IsLabels(value: Value) {
    exists labels :: LabelsOk(labels) && value == EncodeLabels(labels)
  }

  lemma NoLabelFaults(name: string, item: Value, path: string)
    ensures LabelFaults(name, item, path) == {} <==> NamePattern(name, 62) && item.Text? && |item.text| <= 256
  {
    hide Append;
    NoOne(!NamePattern(name, 62), INVALID_VALUE, Append(path, name));
    NoOne(!item.Text?, INVALID_TYPE, Append(path, name));
    NoOne(item.Text? && |item.text| > 256, INVALID_VALUE, Append(path, name));
    hide One, NamePattern;
  }

  predicate LabelMembersOk(members: Members) {
    && |members| <= 64
    && forall name | name in members :: NamePattern(name, 62) && members[name].Text? && |members[name].text| <= 256
  }

  lemma NoLabelsFaults(value: Value, path: string)
    ensures LabelsFaults(value, path) == {} <==> value.Object? && LabelMembersOk(value.members)
  {
    if value.Object? {
      var members := value.members;
      NoOne(|members| > 64, INVALID_VALUE, path);
      hide One, LabelFaults, NamePattern;
      var all := set name, f | name in members && f in LabelFaults(name, members[name], path) :: f;
      forall name | name in members
        ensures LabelFaults(name, members[name], path) == {} <==>
                NamePattern(name, 62) && members[name].Text? && |members[name].text| <= 256
        ensures LabelFaults(name, members[name], path) != {} ==> all != {}
      {
        NoLabelFaults(name, members[name], path);
        if f :| f in LabelFaults(name, members[name], path) { assert f in all; }
      }
    }
  }

  lemma LabelsExactly(value: Value, path: string)
    ensures LabelsFaults(value, path) == {} <==> IsLabels(value)
  {
    NoLabelsFaults(value, path);
    hide LabelsFaults, NamePattern;
    if value.Object? && LabelMembersOk(value.members) {
      var labels := map name | name in value.members :: value.members[name].text;
      assert labels.Keys == value.members.Keys && |labels| == |labels.Keys| && |value.members| == |value.members.Keys|;
      assert EncodeLabels(labels).members == value.members;
      assert LabelsOk(labels) && value == EncodeLabels(labels);
    }
    if IsLabels(value) {
      var labels :| LabelsOk(labels) && value == EncodeLabels(labels);
      assert labels.Keys == value.members.Keys && |labels| == |labels.Keys| && |value.members| == |value.members.Keys|;
    }
  }

  ghost predicate IsMetadata(value: Value) {
    exists m :: MetadataOk(m) && value == EncodeMetadata(m)
  }

  /** Metadata without faults is the encoding of well-formed metadata. */
  lemma MetadataExactly(value: Value, path: string)
    ensures MetadataFaults(value, path) == {} <==> IsMetadata(value)
  {
    if value.Object? {
      var obj := value.members;
      var own, checked := ObjectFaults(obj, METADATA_REQUIRED, METADATA_ALLOWED, path),
                          CheckedFaults(obj, "displayName", path, DisplayNameCheck());
      MetadataFields(obj, path);
      NoCheckedFaults(obj, "displayName", path, DisplayNameCheck());
      if "labels" in obj { LabelsExactly(obj["labels"], Append(path, "labels")); }
      hide ObjectFaults, CheckedFaults, LabelsFaults, Append, Shaped, IsMetadata, IsLabels;
      Neither(own, checked);
      Neither(own + checked, if "labels" in obj then LabelsFaults(obj["labels"], Append(path, "labels")) else {});
      MetadataShape(obj);
    } else {
      NotAnObject(path);
      hide IsMetadata;
      MetadataIsObject(value);
    }
  }

  lemma NotAnObject(path: string)
    ensures {Fault(INVALID_TYPE, path)} != {}
  {
    assert Fault(INVALID_TYPE, path) in {Fault(INVALID_TYPE, path)};
  }

  lemma MetadataIsObject(value: Value)
    ensures IsMetadata(value) ==> value.Object?
  {
  }

  lemma MetadataShape(obj: Members)
    ensures IsMetadata(Object(obj)) <==>
            && Shaped(obj, {"displayName"}, {"labels"}) && TextIf(obj, "displayName", DisplayNameCheck())
            && ("labels" in obj ==> IsLabels(obj["labels"]))
  {
    hide LabelsOk, EncodeLabels;
    if && Shaped(obj, {"displayName"}, {"labels"}) && TextIf(obj, "displayName", DisplayNameCheck())
       && ("labels" in obj ==> IsLabels(obj["labels"]))
    {
      var name := obj["displayName"].text;
      if "labels" in obj {
        var labels :| LabelsOk(labels) && obj["labels"] == EncodeLabels(labels);
        assert obj == EncodeMetadata(Metadata(name, Some(labels))).members;
        assert MetadataOk(Metadata(name, Some(labels))) && Object(obj) == EncodeMetadata(Metadata(name, Some(labels)));
      } else {
        assert obj == EncodeMetadata(Metadata(name, None)).members;
        assert MetadataOk(Metadata(name, None)) && Object(obj) == EncodeMetadata(Metadata(name, None));
      }
    }
    if IsMetadata(Object(obj)) {
      var m :| MetadataOk(m) && Object(obj) == EncodeMetadata(m);
    }
  }

  // ----- Policies

  function ScopeText(kind: ScopeKind): string {
    if kind.WorkspaceScope? then "Workspace" else "Environment"
  }

  /** A letter or digit, then 15 to 127 letters, digits, underscores and hyphens. */
  predicate IdOk(id: string) {
    OpaqueIdPattern(id)
  }

  lemma IdChecks(id: string)
    ensures IdCheck()(id) <==> IdOk(id)
    ensures ReferenceCheck()(id) <==> IdOk(id)
  {
  }

  predicate ScopeOk(s: Scope) {
    match s.environmentId
    case None => s.kind.WorkspaceScope?
    case Some(id) => s.kind.EnvironmentScope? && IdOk(id)
  }

  function EncodeScope(s: Scope): Value {
    Object(if s.environmentId.Some? then
             map["kind" := Text(ScopeText(s.kind)), "environmentId" := Text(s.environmentId.value)]
           else map["kind" := Text(ScopeText(s.kind))])
  }

  ghost predicate IsScope(value: Value) {
    exists s :: ScopeOk(s) && value == EncodeScope(s)
  }

  lemma ScopeTexts(text: string, kind: ScopeKind)
    ensures ParseScopeKind(text) == Some(kind) <==> text == ScopeText(kind)
    ensures ParseScopeKind(text).None? <==> text != "Workspace" && text != "Environment"
  {
    assert |"Workspace"| != |"Environment"|;
  }

  lemma NoScopeKindFaults(obj: Members, path: string)
    requires Has(obj, "kind")
    ensures ScopeKindFaults(obj, path) == {} <==> ScopeKindOf(obj).Some?
  {
    hide Append;
    NoCheckedFaults(obj, "kind", path, text => true);
    NoOne(HasText(obj, "kind") && ScopeKindOf(obj).None?, INVALID_VALUE, Append(path, "kind"));
    hide One;
  }

  lemma NoEnvironmentFaults(obj: Members, path: string)
    requires ScopeKindOf(obj).Some?
    ensures EnvironmentFaults(obj, path) == {} <==>
            if ScopeKindOf(obj).value.WorkspaceScope? then "environmentId" !in obj
            else Has(obj, "environmentId") && TextIf(obj, "environmentId", IdCheck())
  {
    hide Append, ParseScopeKind;
    var environment := Append(path, "environmentId");
    NoOne("environmentId" in obj && obj["environmentId"].Null?, INVALID_TYPE, environment);
    NoCheckedFaults(obj, "environmentId", path, IdCheck());
    NoOne(ScopeKindOf(obj) == Some(WorkspaceScope) && "environmentId" in obj, INVALID_VALUE, environment);
    NoOne(ScopeKindOf(obj) == Some(EnvironmentScope) && "environmentId" !in obj, MISSING_FIELD, environment);
    hide One, CheckedFaults;
  }

  ghost predicate ScopeMembers(obj: Members) {
    && Shaped(obj, {"kind"}, {"environmentId"}) && ScopeKindOf(obj).Some?
    && if ScopeKindOf(obj).value.WorkspaceScope? then "environmentId" !in obj
       else Has(obj, "environmentId") && TextIf(obj, "environmentId", IdCheck())
  }

  lemma NoScopeFaults(value: Value, path: string)
    ensures ScopeFaults(value, path) == {} <==> value.Object? && ScopeMembers(value.members)
  {
    if value.Object? {
      var obj := value.members;
      ScopeFields(obj, path);
      if Has(obj, "kind") { NoScopeKindFaults(obj, path); }
      if ScopeKindOf(obj).Some? { NoEnvironmentFaults(obj, path); }
      ShapedHas(obj, {"kind"}, {"environmentId"}, "kind");
      hide ObjectFaults, Append, ScopeKindFaults, EnvironmentFaults, ParseScopeKind, Shaped, TextIf;
      var own, kinds := ObjectFaults(obj, SCOPE_REQUIRED, SCOPE_ALLOWED, path), ScopeKindFaults(obj, path);
      Neither(own, kinds);
      Neither(own + kinds, EnvironmentFaults(obj, path));
    }
  }

  lemma ScopeExactly(value: Value, path: string)
    ensures ScopeFaults(value, path) == {} <==> IsScope(value)
  {
    NoScopeFaults(value, path);
    hide ScopeFaults, IdOk, IdCheck, ParseScopeKind;
    if value.Object? && ScopeMembers(value.members) {
      var obj := value.members;
      var kind := ScopeKindOf(obj).value;
      ScopeTexts(obj["kind"].text, kind);
      var s := Scope(kind, if kind.WorkspaceScope? then None else Some(obj["environmentId"].text));
      if kind.EnvironmentScope? { IdChecks(obj["environmentId"].text); }
      assert obj == EncodeScope(s).members;
      assert ScopeOk(s) && value == EncodeScope(s);
    }
    if IsScope(value) {
      var s :| ScopeOk(s) && value == EncodeScope(s);
      ScopeTexts(ScopeText(s.kind), s.kind);
      if s.environmentId.Some? { IdChecks(s.environmentId.value); }
    }
  }

  predicate RoleOk(role: string) {
    role == "Viewer" || role == "Developer" || role == "Operator" || role == "WorkspaceAdministrator"
  }

  lemma RoleChecks(role: string)
    ensures OneOf(ROLES)(role) <==> RoleOk(role)
  {
    assert ROLES[0] == "Viewer" && ROLES[1] == "Developer" && ROLES[2] == "Operator"
           && ROLES[3] == "WorkspaceAdministrator";
  }

  predicate BindingOk(b: RoleBinding) {
    IdOk(b.memberId) && RoleOk(b.role) && ScopeOk(b.scope)
  }

  function EncodeBinding(b: RoleBinding): Value {
    Object(map["memberId" := Text(b.memberId), "role" := Text(b.role), "scope" := EncodeScope(b.scope)])
  }

  ghost predicate IsBinding(value: Value) {
    exists b :: BindingOk(b) && value == EncodeBinding(b)
  }

  ghost predicate BindingMembers(obj: Members) {
    && Shaped(obj, {"memberId", "role", "scope"}, {}) && TextIf(obj, "memberId", IdCheck())
    && TextIf(obj, "role", OneOf(ROLES)) && IsScope(obj["scope"])
  }

  lemma NoBindingFaults(value: Value, path: string)
    ensures BindingFaults(value, path) == {} <==> value.Object? && BindingMembers(value.members)
  {
    if value.Object? {
      var obj := value.members;
      BindingFields(obj, path);
      NoCheckedFaults(obj, "memberId", path, IdCheck());
      NoCheckedFaults(obj, "role", path, OneOf(ROLES));
      ShapedHas(obj, {"memberId", "role", "scope"}, {}, "scope");
      if Has(obj, "scope") { ScopeExactly(obj["scope"], Append(path, "scope")); }
      hide ObjectFaults, CheckedFaults, ScopeFaults, Append, IsScope, Shaped, TextIf, OneOf, IdCheck;
      var own, members, roles := ObjectFaults(obj, BINDING_FIELDS, BINDING_FIELDS, path),
                                 CheckedFaults(obj, "memberId", path, IdCheck()),
                                 CheckedFaults(obj, "role", path, OneOf(ROLES));
      Neither(own, members);
      Neither(own + members, roles);
      Neither(own + members + roles, if Has(obj, "scope") then ScopeFaults(obj["scope"], Append(path, "scope"))
                                     else {});
    }
  }

  lemma BindingExactly(value: Value, path: string)
    ensures BindingFaults(value, path) == {} <==> IsBinding(value)
  {
    NoBindingFaults(value, path);
    hide BindingFaults, IdOk, IdCheck, RoleOk, OneOf, ScopeOk, EncodeScope;
    if value.Object? && BindingMembers(value.members) {
      var obj := value.members;
      var scope :| ScopeOk(scope) && obj["scope"] == EncodeScope(scope);
      var b := RoleBinding(obj["memberId"].text, obj["role"].text, scope);
      IdChecks(b.memberId);
      RoleChecks(b.role);
      assert obj == EncodeBinding(b).members;
      assert BindingOk(b) && value == EncodeBinding(b);
    }
    if IsBinding(value) {
      var b :| BindingOk(b) && value == EncodeBinding(b);
      IdChecks(b.memberId);
      RoleChecks(b.role);
      EncodedScope(b.scope);
    }
  }

  lemma EncodedScope(s: Scope)
    ensures EncodeScope(s).Object?
  {
  }

  function EncodeBindings(bindings: seq<RoleBinding>): seq<Value> {
    seq(|bindings|, i requires 0 <= i < |bindings| => EncodeBinding(bindings[i]))
  }

  lemma {:induction false} NoBindingsFaults(items: seq<Value>, path: string)
    ensures BindingsFaults(items, path) == {} <==> forall i :: 0 <= i < |items| ==> IsBinding(items[i])
  {
    hide BindingFaults, IsBinding, Item;
    if items != [] {
      NoBindingsFaults(items[..|items| - 1], path);
      BindingExactly(items[|items| - 1], Item(path, |items| - 1));
    }
  }

  /** Texts of bindings, each of a well-formed one, come from one list. */
  lemma {:induction false} BindingsOf(items: seq<Value>) returns (bindings: seq<RoleBinding>)
    requires forall i :: 0 <= i < |items| ==> IsBinding(items[i])
    ensures items == EncodeBindings(bindings) && forall i :: 0 <= i < |bindings| ==> BindingOk(bindings[i])
  {
    hide BindingOk, EncodeBinding;
    if items == [] {
      bindings := [];
    } else {
      var n := |items| - 1;
      var front := BindingsOf(items[..n]);
      assert IsBinding(items[n]);
      var b :| BindingOk(b) && items[n] == EncodeBinding(b);
      bindings := front + [b];
      assert items == items[..n] + [items[n]];
    }
  }

  // ----- Specs

  predicate SpecOk(kind: Kind, spec: Spec) {
    match kind
    case Workspace => spec.WorkspaceSpec?
    case Policy =>
      && spec.PolicySpec? && |spec.bindings| <= 128
      && forall i :: 0 <= i < |spec.bindings| ==> BindingOk(spec.bindings[i])
    case ProviderConnection =>
      && spec.ProviderSpec? && NamePattern(spec.provider, 63) && IdOk(spec.referenceId) && VersionPattern(spec.version)
    case _ => spec.EmptySpec?
  }

  function EncodeSpec(spec: Spec): Value {
    match spec
    case WorkspaceSpec(suspend) =>
      Object(if suspend.Some? then map["suspendReconciliation" := Bool(suspend.value)] else map[])
    case PolicySpec(bindings) => Object(map["bindings" := List(EncodeBindings(bindings))])
    case ProviderSpec(provider, referenceId, version) =>
      Object(map["provider" := Text(provider), "credentialRef" := EncodeReference(referenceId, version)])
    case EmptySpec => Object(map[])
  }

  function EncodeReference(referenceId: string, version: string): Value {
    Object(map["referenceId" := Text(referenceId), "version" := Text(version)])
  }

  ghost predicate IsSpec(kind: Kind, value: Value) {
    exists spec :: SpecOk(kind, spec) && value == EncodeSpec(spec)
  }

  lemma WorkspaceSpecExactly(value: Value, path: string)
    ensures WorkspaceSpecFaults(value, path) == {} <==> IsSpec(Workspace, value)
  {
    if value.Object? {
      var obj, name := value.members, "suspendReconciliation";
      assert WORKSPACE_ALLOWED[0] == name;
      NoObjectFaults(obj, [], WORKSPACE_ALLOWED, {name}, path);
      NoOne(name in obj && !obj[name].Bool?, INVALID_TYPE, Append(path, name));
      hide ObjectFaults, One, Append;
      if Shaped(obj, {}, {name}) && (name in obj ==> obj[name].Bool?) {
        var spec := WorkspaceSpec(if name in obj then Some(obj[name].b) else None);
        assert obj == EncodeSpec(spec).members;
        assert SpecOk(Workspace, spec) && value == EncodeSpec(spec);
      }
    }
  }

  ghost predicate PolicyMembers(obj: Members) {
    && Shaped(obj, {"bindings"}, {}) && obj["bindings"].List? && |obj["bindings"].items| <= MAX_BINDINGS
    && forall i :: 0 <= i < |obj["bindings"].items| ==> IsBinding(obj["bindings"].items[i])
  }

  lemma NoPolicyFaults(value: Value, path: string)
    ensures PolicySpecFaults(value, path) == {} <==> value.Object? && PolicyMembers(value.members)
  {
    if value.Object? {
      var obj, bindings := value.members, Append(path, "bindings");
      PolicyFields(obj, path);
      ShapedHas(obj, {"bindings"}, {}, "bindings");
      var own := ObjectFaults(obj, POLICY_FIELDS, POLICY_FIELDS, path);
      if Has(obj, "bindings") && obj["bindings"].List? {
        var items := obj["bindings"].items;
        NoOne(|items| > MAX_BINDINGS, INVALID_VALUE, bindings);
        NoBindingsFaults(items, bindings);
        hide ObjectFaults, One, Append, BindingsFaults, IsBinding, Shaped;
        var size := One(|items| > MAX_BINDINGS, INVALID_VALUE, bindings);
        Neither(size, BindingsFaults(items, bindings));
        Neither(own, size + BindingsFaults(items, bindings));
      } else {
        hide ObjectFaults, Append, BindingsFaults, IsBinding, Shaped;
        NotAnObject(bindings);
        Neither(own, {Fault(INVALID_TYPE, bindings)});
      }
    }
  }

  lemma PolicySpecExactly(value: Value, path: string)
    ensures PolicySpecFaults(value, path) == {} <==> IsSpec(Policy, value)
  {
    NoPolicyFaults(value, path);
    hide PolicySpecFaults, BindingOk, EncodeBinding;
    if value.Object? && PolicyMembers(value.members) {
      var list := BindingsOf(value.members["bindings"].items);
      assert value.members == EncodeSpec(PolicySpec(list)).members;
      assert SpecOk(Policy, PolicySpec(list)) && value == EncodeSpec(PolicySpec(list));
    }
    if IsSpec(Policy, value) {
      var spec :| SpecOk(Policy, spec) && value == EncodeSpec(spec);
      var items := value.members["bindings"].items;
      forall i | 0 <= i < |items|
        ensures IsBinding(items[i])
      {
        assert BindingOk(spec.bindings[i]) && items[i] == EncodeBinding(spec.bindings[i]);
      }
    }
  }

  ghost predicate ReferenceMembers(obj: Members) {
    && Shaped(obj, {"referenceId", "version"}, {}) && TextIf(obj, "referenceId", ReferenceCheck())
    && TextIf(obj, "version", VersionCheck())
  }

  lemma NoReferenceFaults(value: Value, path: string)
    ensures ReferenceFaults(value, path) == {} <==> value.Object? && ReferenceMembers(value.members)
  {
    if value.Object? {
      var obj := value.members;
      ReferenceFields(obj, path);
      NoCheckedFaults(obj, "referenceId", path, ReferenceCheck());
      NoCheckedFaults(obj, "version", path, VersionCheck());
      hide ObjectFaults, CheckedFaults, Shaped, TextIf, ReferenceCheck, VersionCheck;
      var own, ids := ObjectFaults(obj, REFERENCE_FIELDS, REFERENCE_FIELDS, path),
                      CheckedFaults(obj, "referenceId", path, ReferenceCheck());
      Neither(own, ids);
      Neither(own + ids, CheckedFaults(obj, "version", path, VersionCheck()));
    }
  }

  ghost predicate ProviderMembers(obj: Members) {
    && Shaped(obj, {"provider", "credentialRef"}, {}) && TextIf(obj, "provider", ProviderCheck())
    && obj["credentialRef"].Object? && ReferenceMembers(obj["credentialRef"].members)
  }

  lemma NoProviderFaults(value: Value, path: string)
    ensures ProviderSpecFaults(value, path) == {} <==> value.Object? && ProviderMembers(value.members)
  {
    if value.Object? {
      var obj := value.members;
      ProviderFields(obj, path);
      NoCheckedFaults(obj, "provider", path, ProviderCheck());
      ShapedHas(obj, {"provider", "credentialRef"}, {}, "credentialRef");
      if "credentialRef" in obj { NoReferenceFaults(obj["credentialRef"], Append(path, "credentialRef")); }
      hide ObjectFaults, CheckedFaults, ReferenceFaults, Append, ReferenceMembers, Shaped, TextIf, ProviderCheck;
      var own, names := ObjectFaults(obj, PROVIDER_FIELDS, PROVIDER_FIELDS, path),
                        CheckedFaults(obj, "provider", path, ProviderCheck());
      Neither(own, names);
      Neither(own + names,
              if "credentialRef" in obj then ReferenceFaults(obj["credentialRef"], Append(path, "credentialRef"))
              else {});
    }
  }

  lemma ProviderSpecExactly(value: Value, path: string)
    ensures ProviderSpecFaults(value, path) == {} <==> IsSpec(ProviderConnection, value)
  {
    NoProviderFaults(value, path);
    hide ProviderSpecFaults, NamePattern, OpaqueIdPattern, VersionPattern;
    if value.Object? && ProviderMembers(value.members) {
      var obj, reference := value.members, value.members["credentialRef"].members;
      var spec := ProviderSpec(obj["provider"].text, reference["referenceId"].text, reference["version"].text);
      assert reference == EncodeReference(spec.referenceId, spec.version).members;
      assert obj == EncodeSpec(spec).members;
      assert SpecOk(ProviderConnection, spec) && value == EncodeSpec(spec);
    }
  }

  lemma EmptySpecExactly(kind: Kind, value: Value, path: string)
    requires kind.Environment? || kind.Application? || kind.Component?
    ensures EmptySpecFaults(value, path) == {} <==> IsSpec(kind, value)
  {
    if value.Object? {
      NoObjectFaults(value.members, [], [], {}, path);
      hide ObjectFaults;
      if value.members == map[] { assert SpecOk(kind, EmptySpec) && value == EncodeSpec(EmptySpec); }
    }
  }

  lemma SpecExactly(kind: Kind, value: Value, path: string)
    ensures SpecFaults(kind, value, path) == {} <==> IsSpec(kind, value)
  {
    hide WorkspaceSpecFaults, PolicySpecFaults, ProviderSpecFaults, EmptySpecFaults, IsSpec;
    match kind
    case Workspace => WorkspaceSpecExactly(value, path);
    case Policy => PolicySpecExactly(value, path);
    case ProviderConnection => ProviderSpecExactly(value, path);
    case _ => EmptySpecExactly(kind, value, path);
  }

  // ----- Intents

  function KindText(kind: Kind): string {
    match kind
    case Workspace => "Workspace"
    case Environment => "Environment"
    case Application => "Application"
    case Component => "Component"
    case Policy => "Policy"
    case ProviderConnection => "ProviderConnection"
  }

  lemma KindTexts(text: string, kind: Kind)
    ensures ParseKind(text) == Some(kind) <==> text == KindText(kind)
  {
    assert "Workspace"[0] == 'W' && "Environment"[0] == 'E' && "Application"[0] == 'A' && "Component"[0] == 'C';
    assert "Policy"[1] == 'o' && "ProviderConnection"[1] == 'r';
  }

  predicate IntentOk(i: Intent) {
    i.apiVersion == API_VERSION && MetadataOk(i.metadata) && SpecOk(i.kind, i.spec)
  }

  function EncodeIntent(i: Intent): Value {
    Object(map["apiVersion" := Text(i.apiVersion), "kind" := Text(KindText(i.kind)),
               "metadata" := EncodeMetadata(i.metadata), "spec" := EncodeSpec(i.spec)])
  }

  ghost predicate IsIntent(value: Value) {
    exists i :: IntentOk(i) && value == EncodeIntent(i)
  }

  lemma NoHeadFaults(root: Members)
    requires Has(root, "apiVersion") && Has(root, "kind")
    ensures VersionFaults(root) + KindFaults(root) == {} <==>
            root["apiVersion"] == Text(API_VERSION) && KindOf(root).Some?
  {
    hide Append, ParseKind;
    NoCheckedFaults(root, "apiVersion", "", text => true);
    NoCheckedFaults(root, "kind", "", text => true);
    NoOne(HasText(root, "apiVersion") && root["apiVersion"].text != API_VERSION, UNSUPPORTED_VERSION, "/apiVersion");
    NoOne(HasText(root, "kind") && KindOf(root).None?, UNSUPPORTED_KIND, "/kind");
    hide One, TextFaults;
  }

  ghost predicate IntentMembers(root: Members) {
    && Shaped(root, {"apiVersion", "kind", "metadata", "spec"}, {})
    && root["apiVersion"] == Text(API_VERSION) && KindOf(root).Some?
    && IsMetadata(root["metadata"]) && IsSpec(KindOf(root).value, root["spec"])
  }

  lemma NoIntentFaults(value: Value)
    ensures IntentFaults(value) == {} <==> value.Object? && IntentMembers(value.members)
  {
    if value.Object? {
      var root := value.members;
      IntentFields(root, "");
      ShapedHas(root, {"apiVersion", "kind", "metadata", "spec"}, {}, "apiVersion");
      ShapedHas(root, {"apiVersion", "kind", "metadata", "spec"}, {}, "kind");
      ShapedHas(root, {"apiVersion", "kind", "metadata", "spec"}, {}, "metadata");
      ShapedHas(root, {"apiVersion", "kind", "metadata", "spec"}, {}, "spec");
      if Has(root, "apiVersion") && Has(root, "kind") { NoHeadFaults(root); }
      if "metadata" in root { MetadataExactly(root["metadata"], "/metadata"); }
      if "spec" in root && KindOf(root).Some? { SpecExactly(KindOf(root).value, root["spec"], "/spec"); }
      hide ObjectFaults, VersionFaults, KindFaults, MetadataFaults, SpecFaults, IsMetadata, IsSpec, ParseKind, Shaped;
      var own, version, kinds := ObjectFaults(root, INTENT_FIELDS, INTENT_FIELDS, ""), VersionFaults(root),
        KindFaults(root);
      var metadata := if "metadata" in root then MetadataFaults(root["metadata"], "/metadata") else {};
      Neither(own, version);
      Neither(own + version, kinds);
      Neither(version, kinds);
      Neither(own + version + kinds, metadata);
      Neither(own + version + kinds + metadata,
              if "spec" in root && KindOf(root).Some? then SpecFaults(KindOf(root).value, root["spec"], "/spec")
              else {});
    }
  }

  /** The schema accepts exactly the encodings of well-formed intents. */
  lemma IntentExactly(value: Value)
    ensures IntentFaults(value) == {} <==> IsIntent(value)
  {
    NoIntentFaults(value);
    hide IntentFaults, ParseKind, MetadataOk, EncodeMetadata, SpecOk, EncodeSpec;
    if value.Object? && IntentMembers(value.members) {
      var root := value.members;
      var kind := KindOf(root).value;
      KindTexts(root["kind"].text, kind);
      var m :| MetadataOk(m) && root["metadata"] == EncodeMetadata(m);
      var spec :| SpecOk(kind, spec) && root["spec"] == EncodeSpec(spec);
      var i := Intent(API_VERSION, kind, m, spec);
      assert root == EncodeIntent(i).members;
      assert IntentOk(i) && value == EncodeIntent(i);
    }
    if IsIntent(value) {
      var i :| IntentOk(i) && value == EncodeIntent(i);
      KindTexts(KindText(i.kind), i.kind);
      EncodedObjects(i.metadata, i.spec);
    }
  }

  lemma EncodedObjects(m: Metadata, spec: Spec)
    ensures EncodeMetadata(m).Object? && EncodeSpec(spec).Object?
  {
  }

  lemma LabelsAreReadBack(a: map<string, string>, b: map<string, string>)
    requires LabelsMatch(a, EncodeLabels(b))
    ensures a == b
  {
    forall name | name in a
      ensures a[name] == b[name]
    {
      assert EncodeLabels(b).members[name] == Text(b[name]);
    }
  }

  lemma BindingsAreReadBack(a: seq<RoleBinding>, b: seq<RoleBinding>)
    requires BindingsMatch(a, EncodeBindings(b)) && forall i :: 0 <= i < |b| ==> BindingOk(b[i])
    ensures a == b
  {
    forall i | 0 <= i < |b|
      ensures a[i] == b[i]
    {
      BindingIsReadBack(a[i], b[i]);
    }
  }

  lemma BindingIsReadBack(a: RoleBinding, b: RoleBinding)
    requires BindingMatches(a, EncodeBinding(b)) && BindingOk(b)
    ensures a == b
  {
    hide IdOk, ParseScopeKind;
    ScopeTexts(ScopeText(b.scope.kind), b.scope.kind);
  }

  lemma SpecIsReadBack(kind: Kind, a: Spec, b: Spec)
    requires SpecMatches(a, kind, EncodeSpec(b)) && SpecOk(kind, b)
    ensures a == b
  {
    hide IdOk, NamePattern, VersionPattern, BindingOk, BindingsMatch;
    match kind
    case Policy => BindingsAreReadBack(a.bindings, b.bindings);
    case _ =>
  }

  /** What is decoded from the encoding of a well-formed intent is that intent. */
  lemma IntentIsReadBack(a: Intent, b: Intent)
    requires IntentMatches(a, EncodeIntent(b)) && IntentOk(b)
    ensures a == b
  {
    KindTexts(KindText(b.kind), b.kind);
    hide ParseKind, SpecMatches, SpecOk, EncodeSpec, LabelsOk, LabelsMatch, EncodeLabels;
    SpecIsReadBack(b.kind, a.spec, b.spec);
    if b.metadata.labels.Some? { LabelsAreReadBack(a.metadata.labels.value, b.metadata.labels.value); }
  }

  /** An accepted intent document is the encoding of what is decoded from it, and of nothing else. */
  lemma DecodedIntentIsTheOne(value: Value, a: Intent)
    requires IntentFaults(value) == {} && IntentMatches(a, value)
    ensures IntentOk(a) && value == EncodeIntent(a)
    ensures forall b | IntentOk(b) && value == EncodeIntent(b) :: b == a
  {
    hide IntentFaults, IntentMatches, IntentOk, EncodeIntent;
    IntentExactly(value);
    forall b | IntentOk(b) && value == EncodeIntent(b)
      ensures b == a
    {
      IntentIsReadBack(a, b);
    }
  }

  /** The encoding of a well-formed intent is accepted, and decoding gives the intent back. */
  lemma IntentRoundTrip(i: Intent)
    requires IntentOk(i)
    ensures IntentFaults(EncodeIntent(i)) == {}
    ensures forall a | IntentMatches(a, EncodeIntent(i)) :: a == i
  {
    hide IntentFaults, IntentMatches, IntentOk, EncodeIntent;
    IntentExactly(EncodeIntent(i));
    forall a | IntentMatches(a, EncodeIntent(i))
      ensures a == i
    {
      IntentIsReadBack(a, i);
    }
  }
}
