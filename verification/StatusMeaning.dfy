/** What the status schema accepts: exactly the texts that say a well-formed typed status, and decoding gives it back.

    A number may be written in any way that means it. */
module StatusMeaning {
  import opened Hierarchy
  import opened Wrappers
  import opened Pointer
  import opened Candidates
  import opened SchemaFaults
  import opened SchemaCollect
  import opened SchemaDecode
  import opened IntentMeaning
  import Number

  // ----- Entries

  lemma ConditionFields(obj: Members, path: string)
    ensures ObjectFaults(obj, CONDITION_FIELDS, CONDITION_FIELDS, path) == {} <==>
            Shaped(obj, {"type", "status", "reason", "message", "observedGeneration", "lastTransitionAt"}, {})
  {
    assert CONDITION_FIELDS[0] == "type" && CONDITION_FIELDS[1] == "status" && CONDITION_FIELDS[2] == "reason"
           && CONDITION_FIELDS[3] == "message" && CONDITION_FIELDS[4] == "observedGeneration"
           && CONDITION_FIELDS[5] == "lastTransitionAt";
    hide ObjectFaults;
    NoObjectFaults(obj, CONDITION_FIELDS, CONDITION_FIELDS, {}, path);
  }

  lemma CapabilityFields(obj: Members, path: string)
    ensures ObjectFaults(obj, CAPABILITY_FIELDS, CAPABILITY_FIELDS, path) == {} <==>
            Shaped(obj, {"name", "state", "source", "observedAt", "reason"}, {})
  {
    assert CAPABILITY_FIELDS[0] == "name" && CAPABILITY_FIELDS[1] == "state" && CAPABILITY_FIELDS[2] == "source"
           && CAPABILITY_FIELDS[3] == "observedAt" && CAPABILITY_FIELDS[4] == "reason";
    hide ObjectFaults;
    NoObjectFaults(obj, CAPABILITY_FIELDS, CAPABILITY_FIELDS, {}, path);
  }

  lemma CommonStatusFields(obj: Members, path: string)
    ensures ObjectFaults(obj, COMMON_FIELDS, COMMON_FIELDS, path) == {} <==>
            Shaped(obj, {"observedGeneration", "conditions"}, {})
  {
    assert COMMON_FIELDS[0] == "observedGeneration" && COMMON_FIELDS[1] == "conditions";
    hide ObjectFaults;
    NoObjectFaults(obj, COMMON_FIELDS, COMMON_FIELDS, {}, path);
  }

  lemma ProviderStatusFields(obj: Members, path: string)
    ensures ObjectFaults(obj, PROVIDER_STATUS_FIELDS, PROVIDER_STATUS_FIELDS, path) == {} <==>
            Shaped(obj, {"observedGeneration", "conditions", "capabilities", "quotaChecks"}, {})
  {
    assert PROVIDER_STATUS_FIELDS[0] == "observedGeneration" && PROVIDER_STATUS_FIELDS[1] == "conditions"
           && PROVIDER_STATUS_FIELDS[2] == "capabilities" && PROVIDER_STATUS_FIELDS[3] == "quotaChecks";
    hide ObjectFaults;
    NoObjectFaults(obj, PROVIDER_STATUS_FIELDS, PROVIDER_STATUS_FIELDS, {}, path);
  }

  lemma DocumentFields(obj: Members, path: string)
    ensures ObjectFaults(obj, STATUS_FIELDS, STATUS_FIELDS, path) == {} <==>
            Shaped(obj, {"apiVersion", "kind", "status"}, {})
  {
    assert STATUS_FIELDS[0] == "apiVersion" && STATUS_FIELDS[1] == "kind" && STATUS_FIELDS[2] == "status";
    hide ObjectFaults;
    NoObjectFaults(obj, STATUS_FIELDS, STATUS_FIELDS, {}, path);
  }

  lemma QuotaFields(obj: Members, path: string)
    ensures ObjectFaults(obj, CAPABILITY_FIELDS, QUOTA_FIELDS, path) == {} <==>
            Shaped(obj, {"name", "state", "source", "observedAt", "reason"}, {"requested", "available"})
  {
    var few, all := CAPABILITY_FIELDS, QUOTA_FIELDS;
    assert few[0] == "name" && few[1] == "state" && few[2] == "source" && few[3] == "observedAt" && few[4] == "reason";
    assert all[0] == "name" && all[1] == "state" && all[2] == "requested" && all[3] == "available";
    assert all[4] == "source" && all[5] == "observedAt" && all[6] == "reason";
    hide ObjectFaults;
    NoObjectFaults(obj, CAPABILITY_FIELDS, QUOTA_FIELDS, {"requested", "available"}, path);
  }

  /** Where, when and why something was observed. */
  predicate OriginOk(clock: Clock, source: string, observedAt: string, reason: string) {
    NamePattern(source, 63) && clock(observedAt) && ConditionPattern(reason)
  }

  /** Amounts go with the states that measure them. */
  predicate AmountsOk(state: string, requested: Option<string>, available: Option<string>) {
    && (state == "Unknown" ==> requested.None? && available.None?)
    && (state != "Unknown" ==> requested.Some? && available.Some?)
    && (requested.Some? ==> DecimalOk(requested.value)) && (available.Some? ==> DecimalOk(available.value))
  }

  predicate StatusWord(text: string) {
    text == "True" || text == "False" || text == "Unknown"
  }

  predicate CapabilityWord(text: string) {
    text == "Supported" || text == "Unsupported" || text == "Unknown"
  }

  predicate QuotaWord(text: string) {
    text == "WithinLimit" || text == "Exceeded" || text == "Unknown"
  }

  lemma WordLists(text: string)
    ensures text in STATUSES <==> StatusWord(text)
    ensures text in CAPABILITY_STATES <==> CapabilityWord(text)
    ensures text in QUOTA_STATES <==> QuotaWord(text)
  {
    assert STATUSES[0] == "True" && STATUSES[1] == "False" && STATUSES[2] == "Unknown";
    assert CAPABILITY_STATES[0] == "Supported" && CAPABILITY_STATES[1] == "Unsupported"
           && CAPABILITY_STATES[2] == "Unknown";
    assert QUOTA_STATES[0] == "WithinLimit" && QUOTA_STATES[1] == "Exceeded" && QUOTA_STATES[2] == "Unknown";
  }

  /** At most 32 conditions, and at most 128 capabilities or quota checks. */
  predicate Bounded(entry: Entry, n: nat) {
    match entry
    case Conditions => n <= 32
    case Capabilities => n <= 128
    case Quotas => n <= 128
  }

  predicate EntryOk(clock: Clock, entry: Entry, e: EntryData) {
    match entry
    case Conditions =>
      && e.Condition? && ConditionPattern(e.name) && StatusWord(e.status) && ConditionPattern(e.reason)
      && |e.message| <= 512 && clock(e.lastTransitionAt)
    case Capabilities =>
      && e.Capability? && NamePattern(e.name, 127) && CapabilityWord(e.state)
      && OriginOk(clock, e.source, e.observedAt, e.reason)
    case Quotas =>
      && e.Quota? && NamePattern(e.name, 127) && QuotaWord(e.state)
      && AmountsOk(e.state, e.requested, e.available) && OriginOk(clock, e.source, e.observedAt, e.reason)
  }

  function AmountMember(name: string, amount: Option<string>): Members {
    if amount.Some? then map[name := Text(amount.value)] else map[]
  }

  /** An entry as a JSON object; the number of a condition may be written in any way that means it. */
  function EncodeEntry(e: EntryData, numeral: string): Value {
    match e
    case Condition(name, status, reason, message, _, lastTransitionAt) =>
      Object(map["type" := Text(name), "status" := Text(status), "reason" := Text(reason), "message" := Text(message),
                 "observedGeneration" := Num(numeral), "lastTransitionAt" := Text(lastTransitionAt)])
    case Capability(name, state, source, observedAt, reason) =>
      Object(map["name" := Text(name), "state" := Text(state), "source" := Text(source),
                 "observedAt" := Text(observedAt), "reason" := Text(reason)])
    case Quota(name, state, requested, available, source, observedAt, reason) =>
      Object(map["name" := Text(name), "state" := Text(state), "source" := Text(source),
                 "observedAt" := Text(observedAt), "reason" := Text(reason)]
             + AmountMember("requested", requested) + AmountMember("available", available))
  }

  /** The entry is well-formed and its numeral means its number. */
  ghost predicate Written(clock: Clock, entry: Entry, e: EntryData, numeral: string) {
    EntryOk(clock, entry, e) && (entry.Conditions? ==> Number.Yields(numeral, e.observedGeneration))
  }

  ghost predicate IsEntry(clock: Clock, entry: Entry, value: Value) {
    exists e, numeral :: Written(clock, entry, e, numeral) && value == EncodeEntry(e, numeral)
  }

  lemma NoNumberFaults(obj: Members, name: string, path: string)
    requires Has(obj, name)
    ensures NumberFaults(obj, name, path) == {} <==> obj[name].Num? && Int64Text(obj[name].text)
  {
    hide Append, Int64Text;
    NoOne(Has(obj, name) && !obj[name].Num?, INVALID_TYPE, Append(path, name));
    NoOne(name in obj && obj[name].Num? && !Int64Text(obj[name].text), INVALID_VALUE, Append(path, name));
    hide One;
  }

  ghost predicate ConditionMembers(clock: Clock, obj: Members) {
    && Shaped(obj, {"type", "status", "reason", "message", "observedGeneration", "lastTransitionAt"}, {})
    && TextIf(obj, "type", WordCheck()) && TextIf(obj, "status", OneOf(STATUSES)) && TextIf(obj, "reason", WordCheck())
    && TextIf(obj, "message", MessageCheck()) && TextIf(obj, "lastTransitionAt", clock)
    && obj["observedGeneration"].Num? && Int64Text(obj["observedGeneration"].text)
  }

  lemma NoConditionFaults(clock: Clock, value: Value, path: string)
    ensures ConditionFaults(clock, value, path) == {} <==> value.Object? && ConditionMembers(clock, value.members)
  {
    if value.Object? {
      var obj := value.members;
      ConditionFields(obj, path);
      NoCheckedFaults(obj, "type", path, WordCheck());
      NoCheckedFaults(obj, "status", path, OneOf(STATUSES));
      NoCheckedFaults(obj, "reason", path, WordCheck());
      NoCheckedFaults(obj, "message", path, MessageCheck());
      NoCheckedFaults(obj, "lastTransitionAt", path, clock);
      ShapedHas(obj, {"type", "status", "reason", "message", "observedGeneration", "lastTransitionAt"}, {},
                "observedGeneration");
      if Has(obj, "observedGeneration") { NoNumberFaults(obj, "observedGeneration", path); }
      hide ObjectFaults, CheckedFaults, NumberFaults, Shaped, TextIf, OneOf, WordCheck, MessageCheck, Int64Text, Append;
      var own := ObjectFaults(obj, CONDITION_FIELDS, CONDITION_FIELDS, path);
      var types, statuses := CheckedFaults(obj, "type", path, WordCheck()),
        CheckedFaults(obj, "status", path, OneOf(STATUSES));
      var reasons, messages := CheckedFaults(obj, "reason", path, WordCheck()),
        CheckedFaults(obj, "message", path, MessageCheck());
      var numbers := NumberFaults(obj, "observedGeneration", path);
      Neither(own, types);
      Neither(own + types, statuses);
      Neither(own + types + statuses, reasons);
      Neither(own + types + statuses + reasons, messages);
      Neither(own + types + statuses + reasons + messages, numbers);
      Neither(own + types + statuses + reasons + messages + numbers,
              CheckedFaults(obj, "lastTransitionAt", path, clock));
    }
  }

  lemma WordChecks(text: string)
    ensures WordCheck()(text) <==> ConditionPattern(text)
    ensures SourceCheck()(text) <==> NamePattern(text, 63)
    ensures ObservationCheck()(text) <==> NamePattern(text, 127)
  {
  }

  lemma ConditionIsRead(clock: Clock, obj: Members)
    requires ConditionMembers(clock, obj)
    ensures IsEntry(clock, Conditions, Object(obj))
  {
    hide ConditionPattern, Number.Yields;
    var numeral := obj["observedGeneration"].text;
    var v :| Number.Yields(numeral, v);
    var e := Condition(obj["type"].text, obj["status"].text, obj["reason"].text, obj["message"].text, v,
                       obj["lastTransitionAt"].text);
    WordLists(e.status);
    assert Written(clock, Conditions, e, numeral);
    hide Written, WordCheck, OneOf, MessageCheck;
    assert obj == EncodeEntry(e, numeral).members;
    assert Written(clock, Conditions, e, numeral) && Object(obj) == EncodeEntry(e, numeral);
  }

  lemma EncodedCondition(e: EntryData, numeral: string)
    requires e.Condition?
    ensures EncodeEntry(e, numeral).Object?
    ensures var obj := EncodeEntry(e, numeral).members;
            && Shaped(obj, {"type", "status", "reason", "message", "observedGeneration", "lastTransitionAt"}, {})
            && TextAt(obj, "type", e.name) && TextAt(obj, "status", e.status) && TextAt(obj, "reason", e.reason)
            && TextAt(obj, "message", e.message) && TextAt(obj, "lastTransitionAt", e.lastTransitionAt)
            && obj["observedGeneration"] == Num(numeral)
  {
    assert "type"[0] == 't' && "status"[0] == 's' && "reason"[0] == 'r' && "message"[0] == 'm';
    assert "observedGeneration"[0] == 'o' && "lastTransitionAt"[0] == 'l';
  }

  lemma Yielded(numeral: string, v: int)
    requires Number.Yields(numeral, v)
    ensures Int64Text(numeral)
  {
    hide Number.Yields;
  }

  lemma OriginIsWritten(clock: Clock, obj: Members, e: EntryData)
    requires (e.Capability? || e.Quota?) && OriginOk(clock, e.source, e.observedAt, e.reason)
    requires TextAt(obj, "source", e.source) && TextAt(obj, "observedAt", e.observedAt)
             && TextAt(obj, "reason", e.reason)
    ensures OriginMembers(clock, obj)
  {
    OriginChecks(e);
    hide ConditionPattern, NamePattern, WordCheck, SourceCheck, TextIf, TextAt;
    TextIfAt(obj, "source", e.source, SourceCheck());
    TextIfAt(obj, "observedAt", e.observedAt, clock);
    TextIfAt(obj, "reason", e.reason, WordCheck());
  }

  lemma ConditionIsWritten(clock: Clock, e: EntryData, numeral: string)
    requires Written(clock, Conditions, e, numeral)
    ensures EncodeEntry(e, numeral).Object? && ConditionMembers(clock, EncodeEntry(e, numeral).members)
  {
    EncodedCondition(e, numeral);
    hide EncodeEntry, ConditionPattern, Number.Yields, WordCheck, Shaped, OneOf, TextIf, TextAt, Int64Text, StatusWord;
    var obj := EncodeEntry(e, numeral).members;
    WordChecks(e.name);
    WordChecks(e.reason);
    OneOfExactly(STATUSES, e.status);
    WordLists(e.status);
    TextIfAt(obj, "type", e.name, WordCheck());
    TextIfAt(obj, "status", e.status, OneOf(STATUSES));
    TextIfAt(obj, "reason", e.reason, WordCheck());
    TextIfAt(obj, "message", e.message, MessageCheck());
    TextIfAt(obj, "lastTransitionAt", e.lastTransitionAt, clock);
    Yielded(numeral, e.observedGeneration);
  }

  lemma ConditionExactly(clock: Clock, value: Value, path: string)
    ensures ConditionFaults(clock, value, path) == {} <==> IsEntry(clock, Conditions, value)
  {
    NoConditionFaults(clock, value, path);
    hide ConditionFaults, ConditionMembers, Written, EncodeEntry;
    if value.Object? && ConditionMembers(clock, value.members) {
      ConditionIsRead(clock, value.members);
    }
    if e, numeral :| Written(clock, Conditions, e, numeral) && value == EncodeEntry(e, numeral) {
      ConditionIsWritten(clock, e, numeral);
    }
  }

  ghost predicate OriginMembers(clock: Clock, obj: Members) {
    TextIf(obj, "source", SourceCheck()) && TextIf(obj, "observedAt", clock) && TextIf(obj, "reason", WordCheck())
  }

  lemma NoOriginFaults(clock: Clock, obj: Members, path: string)
    ensures OriginFaults(clock, obj, path) == {} <==> OriginMembers(clock, obj)
  {
    NoCheckedFaults(obj, "source", path, SourceCheck());
    NoCheckedFaults(obj, "observedAt", path, clock);
    NoCheckedFaults(obj, "reason", path, WordCheck());
    hide CheckedFaults, TextIf, SourceCheck, WordCheck;
    var sources, times := CheckedFaults(obj, "source", path, SourceCheck()),
      CheckedFaults(obj, "observedAt", path, clock);
    Neither(sources, times);
    Neither(sources + times, CheckedFaults(obj, "reason", path, WordCheck()));
  }

  ghost predicate CapabilityMembers(clock: Clock, obj: Members) {
    && Shaped(obj, {"name", "state", "source", "observedAt", "reason"}, {})
    && TextIf(obj, "name", ObservationCheck()) && TextIf(obj, "state", OneOf(CAPABILITY_STATES))
    && OriginMembers(clock, obj)
  }

  lemma NoCapabilityFaults(clock: Clock, value: Value, path: string)
    ensures CapabilityFaults(clock, value, path) == {} <==> value.Object? && CapabilityMembers(clock, value.members)
  {
    if value.Object? {
      var obj := value.members;
      CapabilityFields(obj, path);
      NoCheckedFaults(obj, "name", path, ObservationCheck());
      NoCheckedFaults(obj, "state", path, OneOf(CAPABILITY_STATES));
      NoOriginFaults(clock, obj, path);
      hide ObjectFaults, CheckedFaults, OriginFaults, OriginMembers, Shaped, TextIf, OneOf, ObservationCheck;
      var own, names := ObjectFaults(obj, CAPABILITY_FIELDS, CAPABILITY_FIELDS, path),
                        CheckedFaults(obj, "name", path, ObservationCheck());
      var states := CheckedFaults(obj, "state", path, OneOf(CAPABILITY_STATES));
      Neither(own, names);
      Neither(own + names, states);
      Neither(own + names + states, OriginFaults(clock, obj, path));
    }
  }

  lemma CapabilityHead(clock: Clock, obj: Members)
    requires CapabilityMembers(clock, obj)
    ensures var name, state := TextOf(obj, "name"), TextOf(obj, "state");
            && TextAt(obj, "name", name) && TextAt(obj, "state", state)
            && NamePattern(name, 127) && CapabilityWord(state)
  {
    ObservedIsThere(obj, {});
    hide Shaped, Has, TextIf, TextAt, TextOf, OneOf, ObservationCheck, NamePattern, OriginMembers, CapabilityWord;
    TextIsAt(obj, "name", ObservationCheck());
    TextIsAt(obj, "state", OneOf(CAPABILITY_STATES));
    OneOfExactly(CAPABILITY_STATES, TextOf(obj, "state"));
    WordLists(TextOf(obj, "state"));
    WordChecks(TextOf(obj, "name"));
  }

  lemma CapabilityTexts(clock: Clock, obj: Members)
    requires CapabilityMembers(clock, obj)
    ensures var e := CapabilityOf(obj);
            && EntryOk(clock, Capabilities, e)
            && TextAt(obj, "name", e.name) && TextAt(obj, "state", e.state) && TextAt(obj, "source", e.source)
            && TextAt(obj, "observedAt", e.observedAt) && TextAt(obj, "reason", e.reason)
  {
    CapabilityHead(clock, obj);
    ObservedIsThere(obj, {});
    OriginIsRead(clock, obj);
    hide CapabilityMembers, TextAt, TextOf, NamePattern, OriginOk, CapabilityWord;
  }

  function CapabilityOf(obj: Members): EntryData {
    Capability(TextOf(obj, "name"), TextOf(obj, "state"), TextOf(obj, "source"), TextOf(obj, "observedAt"),
               TextOf(obj, "reason"))
  }

  lemma CapabilityIsAllOf(obj: Members, e: EntryData)
    requires Shaped(obj, {"name", "state", "source", "observedAt", "reason"}, {}) && e.Capability?
    requires TextAt(obj, "name", e.name) && TextAt(obj, "state", e.state) && TextAt(obj, "source", e.source)
    requires TextAt(obj, "observedAt", e.observedAt) && TextAt(obj, "reason", e.reason)
    ensures Object(obj) == EncodeEntry(e, "")
  {
    EncodedCapability(e, "");
    hide EncodeEntry;
    var other := EncodeEntry(e, "").members;
    assert obj.Keys == other.Keys;
    assert obj == other;
  }

  lemma CapabilityIsRead(clock: Clock, obj: Members)
    requires CapabilityMembers(clock, obj)
    ensures IsEntry(clock, Capabilities, Object(obj))
  {
    CapabilityTexts(clock, obj);
    hide EntryOk, EncodeEntry, TextIf, OriginMembers, TextOf, OneOf, TextAt, Shaped;
    var e := CapabilityOf(obj);
    CapabilityIsAllOf(obj, e);
    assert Written(clock, Capabilities, e, "") && Object(obj) == EncodeEntry(e, "");
  }

  lemma EncodedCapability(e: EntryData, numeral: string)
    requires e.Capability?
    ensures EncodeEntry(e, numeral).Object?
    ensures var obj := EncodeEntry(e, numeral).members;
            && Shaped(obj, {"name", "state", "source", "observedAt", "reason"}, {})
            && TextAt(obj, "name", e.name) && TextAt(obj, "state", e.state) && TextAt(obj, "source", e.source)
            && TextAt(obj, "observedAt", e.observedAt) && TextAt(obj, "reason", e.reason)
  {
    assert "name"[0] == 'n' && "state"[1] == 't' && "source"[1] == 'o' && "state"[0] == 's' && "source"[0] == 's';
    assert "observedAt"[0] == 'o' && "reason"[0] == 'r';
  }

  lemma CapabilityIsWritten(clock: Clock, e: EntryData, numeral: string)
    requires EntryOk(clock, Capabilities, e)
    ensures EncodeEntry(e, numeral).Object? && CapabilityMembers(clock, EncodeEntry(e, numeral).members)
  {
    EncodedCapability(e, numeral);
    OriginChecks(e);
    hide EncodeEntry, NamePattern, ObservationCheck, Shaped, OneOf, TextIf, TextAt, OriginMembers, OriginOk,
         CapabilityWord;
    var obj := EncodeEntry(e, numeral).members;
    OneOfExactly(CAPABILITY_STATES, e.state);
    WordLists(e.state);
    TextIfAt(obj, "name", e.name, ObservationCheck());
    TextIfAt(obj, "state", e.state, OneOf(CAPABILITY_STATES));
    OriginIsWritten(clock, obj, e);
  }

  lemma CapabilityExactly(clock: Clock, value: Value, path: string)
    ensures CapabilityFaults(clock, value, path) == {} <==> IsEntry(clock, Capabilities, value)
  {
    NoCapabilityFaults(clock, value, path);
    hide CapabilityFaults, CapabilityMembers, EntryOk, EncodeEntry;
    if value.Object? && CapabilityMembers(clock, value.members) {
      CapabilityIsRead(clock, value.members);
    }
    if e, numeral :| Written(clock, Capabilities, e, numeral) && value == EncodeEntry(e, numeral) {
      CapabilityIsWritten(clock, e, numeral);
    }
  }

  lemma OriginChecks(e: EntryData)
    requires e.Capability? || e.Quota?
    ensures WordCheck()(e.reason) <==> ConditionPattern(e.reason)
    ensures SourceCheck()(e.source) <==> NamePattern(e.source, 63)
    ensures ObservationCheck()(e.name) <==> NamePattern(e.name, 127)
  {
    hide ConditionPattern, NamePattern;
    WordChecks(e.reason);
    WordChecks(e.source);
    WordChecks(e.name);
  }

  // ----- Quotas

  predicate AmountIf(obj: Members, name: string) {
    name in obj ==> obj[name].Text? && DecimalOk(obj[name].text)
  }

  lemma NoDecimalFaults(obj: Members, name: string, path: string)
    ensures DecimalFaults(obj, name, path) == {} <==> AmountIf(obj, name)
  {
    hide Append, DecimalOk;
    NoOne(name in obj && !obj[name].Text?, INVALID_TYPE, Append(path, name));
    NoOne(HasText(obj, name) && !DecimalOk(obj[name].text), INVALID_VALUE, Append(path, name));
    hide One;
  }

  lemma NoAmountFaults(obj: Members, path: string)
    requires HasText(obj, "state") && obj["state"].text in QUOTA_STATES
    ensures AmountFaults(obj, path) == {} <==>
            if obj["state"].text == "Unknown" then "requested" !in obj && "available" !in obj
            else "requested" in obj && "available" in obj
  {
    hide Append;
    var state := obj["state"].text;
    assert state == "WithinLimit" || state == "Exceeded" || state == "Unknown";
    var measured := state == "WithinLimit" || state == "Exceeded";
    assert |"WithinLimit"| != |"Unknown"| && |"Exceeded"| != |"Unknown"|;
    NoOne(state == "Unknown" && ("requested" in obj || "available" in obj), INVALID_VALUE, Append(path, "state"));
    NoOne(measured && "available" !in obj, MISSING_FIELD, Append(path, "available"));
    NoOne(measured && "requested" !in obj, MISSING_FIELD, Append(path, "requested"));
    hide One;
  }

  ghost predicate QuotaMembers(clock: Clock, obj: Members) {
    && Shaped(obj, {"name", "state", "source", "observedAt", "reason"}, {"requested", "available"})
    && TextIf(obj, "name", ObservationCheck()) && TextIf(obj, "state", OneOf(QUOTA_STATES))
    && AmountIf(obj, "requested") && AmountIf(obj, "available")
    && (if obj["state"] == Text("Unknown") then "requested" !in obj && "available" !in obj
        else "requested" in obj && "available" in obj)
    && OriginMembers(clock, obj)
  }

  lemma NoQuotaFaults(clock: Clock, value: Value, path: string)
    ensures QuotaFaults(clock, value, path) == {} <==> value.Object? && QuotaMembers(clock, value.members)
  {
    if value.Object? {
      var obj := value.members;
      QuotaFields(obj, path);
      NoCheckedFaults(obj, "name", path, ObservationCheck());
      NoCheckedFaults(obj, "state", path, OneOf(QUOTA_STATES));
      NoDecimalFaults(obj, "requested", path);
      NoDecimalFaults(obj, "available", path);
      NoOriginFaults(clock, obj, path);
      ShapedHas(obj, {"name", "state", "source", "observedAt", "reason"}, {"requested", "available"}, "state");
      if HasText(obj, "state") && obj["state"].text in QUOTA_STATES { NoAmountFaults(obj, path); }
      assert Has(obj, "state") && TextIf(obj, "state", OneOf(QUOTA_STATES)) ==>
               HasText(obj, "state") && obj["state"].text in QUOTA_STATES;
      hide ObjectFaults, CheckedFaults, DecimalFaults, AmountFaults, OriginFaults, OriginMembers, Shaped, TextIf, OneOf,
           ObservationCheck, AmountIf;
      var own, names := ObjectFaults(obj, CAPABILITY_FIELDS, QUOTA_FIELDS, path),
                        CheckedFaults(obj, "name", path, ObservationCheck());
      var states := CheckedFaults(obj, "state", path, OneOf(QUOTA_STATES));
      var requested, available := DecimalFaults(obj, "requested", path), DecimalFaults(obj, "available", path);
      var amounts := AmountFaults(obj, path);
      Neither(own, names);
      Neither(own + names, states);
      Neither(own + names + states, requested);
      Neither(own + names + states + requested, available);
      Neither(own + names + states + requested + available, amounts);
      Neither(own + names + states + requested + available + amounts, OriginFaults(clock, obj, path));
    }
  }

  /** The quota that the members say. */
  function QuotaOf(obj: Members): EntryData {
    Quota(TextOf(obj, "name"), TextOf(obj, "state"),
          if "requested" in obj then Some(TextOf(obj, "requested")) else None,
          if "available" in obj then Some(TextOf(obj, "available")) else None,
          TextOf(obj, "source"), TextOf(obj, "observedAt"), TextOf(obj, "reason"))
  }

  lemma ObservedIsThere(obj: Members, optional: set<string>)
    requires Shaped(obj, {"name", "state", "source", "observedAt", "reason"}, optional)
    ensures Has(obj, "name") && Has(obj, "state") && Has(obj, "source") && Has(obj, "observedAt") && Has(obj, "reason")
  {
    var names := {"name", "state", "source", "observedAt", "reason"};
    hide Shaped, Has;
    ShapedHas(obj, names, optional, "name");
    ShapedHas(obj, names, optional, "state");
    ShapedHas(obj, names, optional, "source");
    ShapedHas(obj, names, optional, "observedAt");
    ShapedHas(obj, names, optional, "reason");
  }

  lemma OriginIsRead(clock: Clock, obj: Members)
    requires OriginMembers(clock, obj) && Has(obj, "source") && Has(obj, "observedAt") && Has(obj, "reason")
    ensures TextAt(obj, "source", TextOf(obj, "source")) && TextAt(obj, "observedAt", TextOf(obj, "observedAt"))
    ensures TextAt(obj, "reason", TextOf(obj, "reason"))
    ensures OriginOk(clock, TextOf(obj, "source"), TextOf(obj, "observedAt"), TextOf(obj, "reason"))
  {
    hide TextIf, TextOf, TextAt, SourceCheck, WordCheck, NamePattern, ConditionPattern;
    TextIsAt(obj, "source", SourceCheck());
    TextIsAt(obj, "observedAt", clock);
    TextIsAt(obj, "reason", WordCheck());
    WordChecks(TextOf(obj, "source"));
    WordChecks(TextOf(obj, "reason"));
  }

  lemma AmountsAreRead(obj: Members, state: string)
    requires AmountIf(obj, "requested") && AmountIf(obj, "available") && TextAt(obj, "state", state)
    requires if obj["state"] == Text("Unknown") then "requested" !in obj && "available" !in obj
             else "requested" in obj && "available" in obj
    ensures var e := QuotaOf(obj);
            && AmountsOk(state, e.requested, e.available)
            && OptionalTextAt(obj, "requested", e.requested) && OptionalTextAt(obj, "available", e.available)
  {
    hide DecimalOk;
  }

  lemma QuotaHead(clock: Clock, obj: Members)
    requires QuotaMembers(clock, obj)
    ensures var name, state := TextOf(obj, "name"), TextOf(obj, "state");
            && TextAt(obj, "name", name) && TextAt(obj, "state", state)
            && NamePattern(name, 127) && QuotaWord(state)
  {
    ObservedIsThere(obj, {"requested", "available"});
    hide Shaped, Has, TextIf, TextAt, TextOf, OneOf, ObservationCheck, NamePattern, OriginMembers, AmountIf, QuotaWord;
    TextIsAt(obj, "name", ObservationCheck());
    TextIsAt(obj, "state", OneOf(QUOTA_STATES));
    OneOfExactly(QUOTA_STATES, TextOf(obj, "state"));
    WordLists(TextOf(obj, "state"));
    WordChecks(TextOf(obj, "name"));
  }

  lemma QuotaRest(clock: Clock, obj: Members)
    requires QuotaMembers(clock, obj) && TextAt(obj, "state", TextOf(obj, "state"))
    ensures var e := QuotaOf(obj);
            && TextAt(obj, "source", e.source) && TextAt(obj, "observedAt", e.observedAt)
            && TextAt(obj, "reason", e.reason)
            && OriginOk(clock, e.source, e.observedAt, e.reason) && AmountsOk(e.state, e.requested, e.available)
            && OptionalTextAt(obj, "requested", e.requested) && OptionalTextAt(obj, "available", e.available)
  {
    ObservedIsThere(obj, {"requested", "available"});
    hide Shaped, Has, TextIf, TextAt, TextOf, OneOf, ObservationCheck, OriginMembers, OriginOk, AmountIf, AmountsOk,
         OptionalTextAt;
    OriginIsRead(clock, obj);
    AmountsAreRead(obj, TextOf(obj, "state"));
  }

  lemma QuotaTexts(clock: Clock, obj: Members)
    requires QuotaMembers(clock, obj)
    ensures var e := QuotaOf(obj);
            && EntryOk(clock, Quotas, e)
            && TextAt(obj, "name", e.name) && TextAt(obj, "state", e.state) && TextAt(obj, "source", e.source)
            && TextAt(obj, "observedAt", e.observedAt) && TextAt(obj, "reason", e.reason)
            && OptionalTextAt(obj, "requested", e.requested) && OptionalTextAt(obj, "available", e.available)
  {
    hide QuotaMembers, TextAt, OptionalTextAt, TextOf, NamePattern, OriginOk, AmountsOk, QuotaWord;
    QuotaHead(clock, obj);
    QuotaRest(clock, obj);
  }

  lemma QuotaIsAllOf(obj: Members, e: EntryData)
    requires Shaped(obj, {"name", "state", "source", "observedAt", "reason"}, {"requested", "available"}) && e.Quota?
    requires TextAt(obj, "name", e.name) && TextAt(obj, "state", e.state) && TextAt(obj, "source", e.source)
    requires TextAt(obj, "observedAt", e.observedAt) && TextAt(obj, "reason", e.reason)
    requires OptionalTextAt(obj, "requested", e.requested) && OptionalTextAt(obj, "available", e.available)
    ensures Object(obj) == EncodeEntry(e, "")
  {
    EncodedQuota(e, "");
    hide EncodeEntry;
    var other := EncodeEntry(e, "").members;
    assert obj.Keys == other.Keys;
    assert obj == other;
  }

  lemma QuotaIsRead(clock: Clock, obj: Members)
    requires QuotaMembers(clock, obj)
    ensures IsEntry(clock, Quotas, Object(obj))
  {
    QuotaTexts(clock, obj);
    hide EntryOk, EncodeEntry, TextIf, AmountIf, OriginMembers, TextAt, OptionalTextAt, Shaped, QuotaOf;
    var e := QuotaOf(obj);
    assert e.Quota? by { EntryIsQuota(clock, e); }
    QuotaIsAllOf(obj, e);
    assert Written(clock, Quotas, e, "") && Object(obj) == EncodeEntry(e, "");
  }

  lemma EntryIsQuota(clock: Clock, e: EntryData)
    requires EntryOk(clock, Quotas, e)
    ensures e.Quota?
  {
  }

  lemma QuotaNames()
    ensures "requested" !in {"name", "state", "source", "observedAt", "reason"}
    ensures "available" !in {"name", "state", "source", "observedAt", "reason"} && "available" != "requested"
  {
    assert "name"[0] == 'n' && "state"[0] == 's' && "source"[0] == 's' && "observedAt"[0] == 'o' && "reason"[2] == 'a';
    assert "requested"[0] == 'r' && "requested"[2] == 'q' && "available"[0] == 'a' && "reason"[0] == 'r';
  }

  lemma EncodedQuota(e: EntryData, numeral: string)
    requires e.Quota?
    ensures EncodeEntry(e, numeral).Object?
    ensures var obj := EncodeEntry(e, numeral).members;
            && Shaped(obj, {"name", "state", "source", "observedAt", "reason"}, {"requested", "available"})
            && TextAt(obj, "name", e.name) && TextAt(obj, "state", e.state) && TextAt(obj, "source", e.source)
            && TextAt(obj, "observedAt", e.observedAt) && TextAt(obj, "reason", e.reason)
            && OptionalTextAt(obj, "requested", e.requested) && OptionalTextAt(obj, "available", e.available)
  {
    var plain := Capability(e.name, e.state, e.source, e.observedAt, e.reason);
    EncodedCapability(plain, numeral);
    QuotaNames();
    var base := EncodeEntry(plain, numeral).members;
    assert EncodeEntry(e, numeral).members
           == base + AmountMember("requested", e.requested) + AmountMember("available", e.available);
    hide EncodeEntry;
    assert base.Keys == {"name", "state", "source", "observedAt", "reason"};
  }

  lemma AmountsAreWritten(obj: Members, e: EntryData)
    requires e.Quota? && AmountsOk(e.state, e.requested, e.available) && TextAt(obj, "state", e.state)
    requires OptionalTextAt(obj, "requested", e.requested) && OptionalTextAt(obj, "available", e.available)
    ensures "state" in obj && AmountIf(obj, "requested") && AmountIf(obj, "available")
    ensures if obj["state"] == Text("Unknown") then "requested" !in obj && "available" !in obj
            else "requested" in obj && "available" in obj
  {
    hide DecimalOk;
  }

  lemma QuotaIsWritten(clock: Clock, e: EntryData, numeral: string)
    requires EntryOk(clock, Quotas, e)
    ensures EncodeEntry(e, numeral).Object? && QuotaMembers(clock, EncodeEntry(e, numeral).members)
  {
    EncodedQuota(e, numeral);
    OriginChecks(e);
    hide EncodeEntry, NamePattern, ObservationCheck, Shaped, OneOf, TextIf, OriginMembers, OriginOk, AmountsOk,
         AmountIf, QuotaWord, TextAt, OptionalTextAt;
    var obj := EncodeEntry(e, numeral).members;
    OneOfExactly(QUOTA_STATES, e.state);
    WordLists(e.state);
    TextIfAt(obj, "name", e.name, ObservationCheck());
    TextIfAt(obj, "state", e.state, OneOf(QUOTA_STATES));
    AmountsAreWritten(obj, e);
    OriginIsWritten(clock, obj, e);
  }

  lemma QuotaExactly(clock: Clock, value: Value, path: string)
    ensures QuotaFaults(clock, value, path) == {} <==> IsEntry(clock, Quotas, value)
  {
    NoQuotaFaults(clock, value, path);
    hide QuotaFaults, QuotaMembers, EntryOk, EncodeEntry;
    if value.Object? && QuotaMembers(clock, value.members) {
      QuotaIsRead(clock, value.members);
    }
    if e, numeral :| Written(clock, Quotas, e, numeral) && value == EncodeEntry(e, numeral) {
      QuotaIsWritten(clock, e, numeral);
    }
  }

  lemma EntryExactly(clock: Clock, entry: Entry, value: Value, path: string)
    ensures EntryFaults(clock, entry, value, path) == {} <==> IsEntry(clock, entry, value)
  {
    hide ConditionFaults, CapabilityFaults, QuotaFaults, IsEntry;
    match entry
    case Conditions => ConditionExactly(clock, value, path);
    case Capabilities => CapabilityExactly(clock, value, path);
    case Quotas => QuotaExactly(clock, value, path);
  }

  // ----- Lists

  ghost predicate EntrySays(clock: Clock, entry: Entry, e: EntryData, value: Value) {
    exists numeral :: Written(clock, entry, e, numeral) && value == EncodeEntry(e, numeral)
  }

  ghost predicate EntriesSay(clock: Clock, entry: Entry, es: seq<EntryData>, items: seq<Value>) {
    |items| == |es| && forall i :: 0 <= i < |es| ==> EntrySays(clock, entry, es[i], items[i])
  }

  /** The value is a list of these entries, within the limit. */
  ghost predicate ListSays(clock: Clock, entry: Entry, es: seq<EntryData>, value: Value) {
    value.List? && Bounded(entry, |es|) && EntriesSay(clock, entry, es, value.items)
  }

  lemma {:induction false} NoEntriesFaults(clock: Clock, entry: Entry, items: seq<Value>, path: string)
    ensures EntriesFaults(clock, entry, items, path) == {} <==>
            forall i :: 0 <= i < |items| ==> IsEntry(clock, entry, items[i])
  {
    hide EntryFaults, IsEntry, Item;
    if items != [] {
      NoEntriesFaults(clock, entry, items[..|items| - 1], path);
      EntryExactly(clock, entry, items[|items| - 1], Item(path, |items| - 1));
    }
  }

  lemma {:induction false} EntriesOf(clock: Clock, entry: Entry, items: seq<Value>) returns (es: seq<EntryData>)
    requires forall i :: 0 <= i < |items| ==> IsEntry(clock, entry, items[i])
    ensures EntriesSay(clock, entry, es, items)
  {
    hide Written, EncodeEntry;
    if items == [] {
      es := [];
    } else {
      var n := |items| - 1;
      var front := EntriesOf(clock, entry, items[..n]);
      assert IsEntry(clock, entry, items[n]);
      var e, numeral :| Written(clock, entry, e, numeral) && items[n] == EncodeEntry(e, numeral);
      es := front + [e];
      assert EntrySays(clock, entry, es[n], items[n]);
      forall i | 0 <= i < n
        ensures EntrySays(clock, entry, es[i], items[i])
      {
        assert EntrySays(clock, entry, front[i], items[..n][i]);
      }
    }
  }

  ghost predicate IsList(clock: Clock, entry: Entry, value: Value) {
    exists es :: ListSays(clock, entry, es, value)
  }

  lemma SaidAreEntries(clock: Clock, entry: Entry, es: seq<EntryData>, items: seq<Value>)
    requires EntriesSay(clock, entry, es, items)
    ensures forall i :: 0 <= i < |items| ==> IsEntry(clock, entry, items[i])
  {
    hide IsEntry, EntrySays;
    forall i | 0 <= i < |items|
      ensures IsEntry(clock, entry, items[i])
    {
      SaidIsEntry(clock, entry, es[i], items[i]);
    }
  }

  lemma NoListFaults(clock: Clock, entry: Entry, items: seq<Value>, path: string)
    ensures ListFaults(clock, entry, List(items), path) == {} <==>
            Bounded(entry, |items|) && forall i :: 0 <= i < |items| ==> IsEntry(clock, entry, items[i])
  {
    var size := One(|items| > Limit(entry), INVALID_VALUE, path);
    NoOne(|items| > Limit(entry), INVALID_VALUE, path);
    hide One, EntriesFaults, IsEntry;
    NoEntriesFaults(clock, entry, items, path);
    Neither(size, EntriesFaults(clock, entry, items, path));
  }

  lemma ListExactly(clock: Clock, entry: Entry, value: Value, path: string)
    ensures ListFaults(clock, entry, value, path) == {} <==> IsList(clock, entry, value)
  {
    if value.List? {
      NoListFaults(clock, entry, value.items, path);
      hide ListFaults, IsEntry, EntriesSay, Bounded;
      if forall i :: 0 <= i < |value.items| ==> IsEntry(clock, entry, value.items[i]) {
        var es := EntriesOf(clock, entry, value.items);
        EntriesSayAsMany(clock, entry, es, value.items);
        assert Bounded(entry, |es|) ==> ListSays(clock, entry, es, value);
      }
      if es :| ListSays(clock, entry, es, value) {
        SaidAreEntries(clock, entry, es, value.items);
        EntriesSayAsMany(clock, entry, es, value.items);
      }
    } else {
      NotAnObject(path);
    }
  }

  lemma EntriesSayAsMany(clock: Clock, entry: Entry, es: seq<EntryData>, items: seq<Value>)
    requires EntriesSay(clock, entry, es, items)
    ensures |es| == |items|
  {
  }

  lemma SaidIsEntry(clock: Clock, entry: Entry, e: EntryData, value: Value)
    requires EntrySays(clock, entry, e, value)
    ensures IsEntry(clock, entry, value)
  {
    hide Written, EncodeEntry;
  }

  // ----- Status data

  /** The value holds just the members of its kind of status, and they say this. */
  ghost predicate DataSays(clock: Clock, kind: Kind, d: StatusData, value: Value) {
    && value.Object?
    && var obj := value.members;
       && obj.Keys == (if kind.ProviderConnection?
                       then {"observedGeneration", "conditions", "capabilities", "quotaChecks"}
                       else {"observedGeneration", "conditions"})
       && NumberAt(obj, "observedGeneration", d.observedGeneration)
       && ListSays(clock, Conditions, d.conditions, obj["conditions"])
       && if kind.ProviderConnection?
          then ListSays(clock, Capabilities, d.capabilities, obj["capabilities"])
               && ListSays(clock, Quotas, d.quotaChecks, obj["quotaChecks"])
          else d.capabilities == [] && d.quotaChecks == []
  }

  ghost predicate IsData(clock: Clock, kind: Kind, value: Value) {
    exists d :: DataSays(clock, kind, d, value)
  }

  ghost predicate CommonMembers(clock: Clock, obj: Members) {
    && "observedGeneration" in obj && obj["observedGeneration"].Num? && Int64Text(obj["observedGeneration"].text)
    && "conditions" in obj && IsList(clock, Conditions, obj["conditions"])
  }

  ghost predicate DataMembers(clock: Clock, kind: Kind, obj: Members) {
    && CommonMembers(clock, obj)
    && if kind.ProviderConnection? then
         && Shaped(obj, {"observedGeneration", "conditions", "capabilities", "quotaChecks"}, {})
         && IsList(clock, Capabilities, obj["capabilities"]) && IsList(clock, Quotas, obj["quotaChecks"])
       else Shaped(obj, {"observedGeneration", "conditions"}, {})
  }

  lemma NoCommonFaults(clock: Clock, obj: Members, path: string)
    requires Has(obj, "observedGeneration") && Has(obj, "conditions")
    ensures NumberFaults(obj, "observedGeneration", path)
            + MemberListFaults(clock, Conditions, obj, "conditions", path) == {}
            <==> CommonMembers(clock, obj)
  {
    NoNumberFaults(obj, "observedGeneration", path);
    ListExactly(clock, Conditions, obj["conditions"], Append(path, "conditions"));
    hide NumberFaults, ListFaults, IsList, Append, Int64Text;
    Neither(NumberFaults(obj, "observedGeneration", path),
            MemberListFaults(clock, Conditions, obj, "conditions", path));
  }

  lemma NoProviderStatusFaults(clock: Clock, obj: Members, path: string)
    requires Has(obj, "capabilities") && Has(obj, "quotaChecks")
    ensures MemberListFaults(clock, Capabilities, obj, "capabilities", path)
            + MemberListFaults(clock, Quotas, obj, "quotaChecks", path) == {}
            <==> IsList(clock, Capabilities, obj["capabilities"]) && IsList(clock, Quotas, obj["quotaChecks"])
  {
    ListExactly(clock, Capabilities, obj["capabilities"], Append(path, "capabilities"));
    ListExactly(clock, Quotas, obj["quotaChecks"], Append(path, "quotaChecks"));
    hide ListFaults, IsList, Append;
    Neither(MemberListFaults(clock, Capabilities, obj, "capabilities", path),
            MemberListFaults(clock, Quotas, obj, "quotaChecks", path));
  }

  lemma NoStatusFaults(clock: Clock, kind: Kind, value: Value, path: string)
    ensures StatusFaults(clock, kind, value, path) == {} <==> value.Object? && DataMembers(clock, kind, value.members)
  {
    if value.Object? {
      if kind.ProviderConnection? {
        NoProviderStatus(clock, kind, value.members, path);
      } else {
        NoCommonStatus(clock, kind, value.members, path);
      }
      hide DataMembers, ObjectFaults, NumberFaults, MemberListFaults, StatusFields;
    } else {
      NotAnObject(path);
    }
  }

  lemma NoCommonStatus(clock: Clock, kind: Kind, obj: Members, path: string)
    requires !kind.ProviderConnection?
    ensures StatusFaults(clock, kind, Object(obj), path) == {} <==> DataMembers(clock, kind, obj)
  {
    hide ObjectFaults, NumberFaults, MemberListFaults, CommonMembers, Shaped;
    var own, numbers := ObjectFaults(obj, COMMON_FIELDS, COMMON_FIELDS, path),
      NumberFaults(obj, "observedGeneration", path);
    var conditions := MemberListFaults(clock, Conditions, obj, "conditions", path);
    CommonStatusFields(obj, path);
    ShapedHas(obj, {"observedGeneration", "conditions"}, {}, "observedGeneration");
    ShapedHas(obj, {"observedGeneration", "conditions"}, {}, "conditions");
    if Has(obj, "observedGeneration") && Has(obj, "conditions") { NoCommonFaults(clock, obj, path); }
    Neither(numbers, conditions);
    Neither(own, numbers);
    Neither(own + numbers, conditions);
    assert StatusFaults(clock, kind, Object(obj), path) == own + numbers + conditions;
  }

  lemma NoProviderStatus(clock: Clock, kind: Kind, obj: Members, path: string)
    requires kind.ProviderConnection?
    ensures StatusFaults(clock, kind, Object(obj), path) == {} <==> DataMembers(clock, kind, obj)
  {
    hide ObjectFaults, NumberFaults, MemberListFaults, CommonMembers, Shaped, IsList;
    var names := {"observedGeneration", "conditions", "capabilities", "quotaChecks"};
    var own := ObjectFaults(obj, PROVIDER_STATUS_FIELDS, PROVIDER_STATUS_FIELDS, path);
    var numbers, conditions := NumberFaults(obj, "observedGeneration", path),
                               MemberListFaults(clock, Conditions, obj, "conditions", path);
    var capabilities, quotas := MemberListFaults(clock, Capabilities, obj, "capabilities", path),
                                MemberListFaults(clock, Quotas, obj, "quotaChecks", path);
    ProviderStatusFields(obj, path);
    ShapedHas(obj, names, {}, "observedGeneration");
    ShapedHas(obj, names, {}, "conditions");
    ShapedHas(obj, names, {}, "capabilities");
    ShapedHas(obj, names, {}, "quotaChecks");
    if Has(obj, "observedGeneration") && Has(obj, "conditions") { NoCommonFaults(clock, obj, path); }
    if Has(obj, "capabilities") && Has(obj, "quotaChecks") { NoProviderStatusFaults(clock, obj, path); }
    Neither(numbers, conditions);
    Neither(own, numbers);
    Neither(own + numbers, conditions);
    Neither(own + numbers + conditions, capabilities + quotas);
    assert StatusFaults(clock, kind, Object(obj), path) == own + numbers + conditions + (capabilities + quotas);
  }

  lemma DataExactly(clock: Clock, kind: Kind, value: Value, path: string)
    ensures StatusFaults(clock, kind, value, path) == {} <==> IsData(clock, kind, value)
  {
    NoStatusFaults(clock, kind, value, path);
    hide StatusFaults, DataMembers, DataSays;
    if value.Object? && DataMembers(clock, kind, value.members) { DataIsRead(clock, kind, value.members); }
    if d :| DataSays(clock, kind, d, value) { DataIsWritten(clock, kind, d, value); }
  }

  lemma DataIsRead(clock: Clock, kind: Kind, obj: Members)
    requires DataMembers(clock, kind, obj)
    ensures IsData(clock, kind, Object(obj))
  {
    hide ListSays, Number.Yields;
    var v :| Number.Yields(obj["observedGeneration"].text, v);
    var conditions :| ListSays(clock, Conditions, conditions, obj["conditions"]);
    if kind.ProviderConnection? {
      var capabilities :| ListSays(clock, Capabilities, capabilities, obj["capabilities"]);
      var quotas :| ListSays(clock, Quotas, quotas, obj["quotaChecks"]);
      assert DataSays(clock, kind, StatusData(v, conditions, capabilities, quotas), Object(obj));
    } else {
      assert DataSays(clock, kind, StatusData(v, conditions, [], []), Object(obj));
    }
  }

  lemma ListIsNotNull(clock: Clock, entry: Entry, es: seq<EntryData>, value: Value)
    requires ListSays(clock, entry, es, value)
    ensures IsList(clock, entry, value) && !value.Null?
  {
    hide EntriesSay;
  }

  lemma CommonIsWritten(clock: Clock, obj: Members, d: StatusData)
    requires NumberAt(obj, "observedGeneration", d.observedGeneration) && "conditions" in obj
    requires ListSays(clock, Conditions, d.conditions, obj["conditions"])
    ensures CommonMembers(clock, obj) && Has(obj, "observedGeneration") && Has(obj, "conditions")
  {
    hide ListSays, IsList, Number.Yields, Int64Text;
    Yielded(obj["observedGeneration"].text, d.observedGeneration);
    ListIsNotNull(clock, Conditions, d.conditions, obj["conditions"]);
  }

  lemma CommonIsShaped(obj: Members)
    requires obj.Keys == {"observedGeneration", "conditions"} && Has(obj, "observedGeneration")
             && Has(obj, "conditions")
    ensures Shaped(obj, {"observedGeneration", "conditions"}, {})
  {
  }

  lemma ProviderIsShaped(obj: Members)
    requires obj.Keys == {"observedGeneration", "conditions", "capabilities", "quotaChecks"}
    requires Has(obj, "observedGeneration") && Has(obj, "conditions")
    requires Has(obj, "capabilities") && Has(obj, "quotaChecks")
    ensures Shaped(obj, {"observedGeneration", "conditions", "capabilities", "quotaChecks"}, {})
  {
  }

  lemma DataIsWritten(clock: Clock, kind: Kind, d: StatusData, value: Value)
    requires DataSays(clock, kind, d, value)
    ensures value.Object? && DataMembers(clock, kind, value.members)
  {
    var obj := value.members;
    hide ListSays, IsList, NumberAt, CommonMembers, Shaped;
    CommonIsWritten(clock, obj, d);
    if kind.ProviderConnection? {
      ListIsNotNull(clock, Capabilities, d.capabilities, obj["capabilities"]);
      ListIsNotNull(clock, Quotas, d.quotaChecks, obj["quotaChecks"]);
      ProviderIsShaped(obj);
    } else {
      CommonIsShaped(obj);
    }
  }

  // ----- Status documents

  /** The value is a document of just a version, a kind and a status, and they say this. */
  ghost predicate StatusSays(clock: Clock, s: Status, value: Value) {
    && value.Object? && value.members.Keys == {"apiVersion", "kind", "status"} && s.apiVersion == API_VERSION
    && value.members["apiVersion"] == Text(API_VERSION) && value.members["kind"] == Text(KindText(s.kind))
    && DataSays(clock, s.kind, s.data, value.members["status"])
  }

  ghost predicate IsStatus(clock: Clock, value: Value) {
    exists s :: StatusSays(clock, s, value)
  }

  ghost predicate DocumentMembers(clock: Clock, root: Members) {
    && Shaped(root, {"apiVersion", "kind", "status"}, {}) && root["apiVersion"] == Text(API_VERSION)
    && KindOf(root).Some? && IsData(clock, KindOf(root).value, root["status"])
  }

  lemma NoDocumentFaults(clock: Clock, value: Value)
    ensures StatusDocumentFaults(clock, value) == {} <==> value.Object? && DocumentMembers(clock, value.members)
  {
    if value.Object? {
      var root := value.members;
      DocumentFields(root, "");
      ShapedHas(root, {"apiVersion", "kind", "status"}, {}, "apiVersion");
      ShapedHas(root, {"apiVersion", "kind", "status"}, {}, "kind");
      ShapedHas(root, {"apiVersion", "kind", "status"}, {}, "status");
      if Has(root, "apiVersion") && Has(root, "kind") { NoHeadFaults(root); }
      if "status" in root && KindOf(root).Some? { DataExactly(clock, KindOf(root).value, root["status"], "/status"); }
      hide ObjectFaults, VersionFaults, KindFaults, StatusFaults, IsData, ParseKind, Shaped;
      var own, version, kinds := ObjectFaults(root, STATUS_FIELDS, STATUS_FIELDS, ""), VersionFaults(root),
        KindFaults(root);
      Neither(own, version);
      Neither(own + version, kinds);
      Neither(version, kinds);
      Neither(own + version + kinds,
              if "status" in root && KindOf(root).Some? then
                StatusFaults(clock, KindOf(root).value, root["status"], "/status")
              else {});
    }
  }

  /** The schema accepts exactly the documents that say a well-formed status. */
  lemma StatusExactly(clock: Clock, value: Value)
    ensures StatusDocumentFaults(clock, value) == {} <==> IsStatus(clock, value)
  {
    NoDocumentFaults(clock, value);
    hide StatusDocumentFaults, ParseKind, DataSays;
    if value.Object? && DocumentMembers(clock, value.members) {
      var root := value.members;
      var kind := KindOf(root).value;
      KindTexts(root["kind"].text, kind);
      var d :| DataSays(clock, kind, d, root["status"]);
      assert StatusSays(clock, Status(API_VERSION, kind, d), value);
    }
    if s :| StatusSays(clock, s, value) {
      KindTexts(KindText(s.kind), s.kind);
      DataIsObject(clock, s.kind, s.data, value.members["status"]);
    }
  }

  lemma DataIsObject(clock: Clock, kind: Kind, d: StatusData, value: Value)
    requires DataSays(clock, kind, d, value)
    ensures value.Object?
  {
  }

  // ----- Decoding gives back what was said

  lemma ConditionIsReadBack(a: EntryData, b: EntryData, numeral: string)
    requires b.Condition? && EntryMatches(Conditions, a, EncodeEntry(b, numeral))
    requires Number.Yields(numeral, b.observedGeneration)
    ensures a == b
  {
    EncodedCondition(b, numeral);
    hide EncodeEntry, Number.Yields;
    Number.YieldsOnce(numeral, a.observedGeneration, b.observedGeneration);
  }

  lemma CapabilityIsReadBack(a: EntryData, b: EntryData, numeral: string)
    requires b.Capability? && EntryMatches(Capabilities, a, EncodeEntry(b, numeral))
    ensures a == b
  {
    EncodedCapability(b, numeral);
    hide EncodeEntry;
  }

  lemma QuotaIsReadBack(a: EntryData, b: EntryData, numeral: string)
    requires b.Quota? && EntryMatches(Quotas, a, EncodeEntry(b, numeral))
    ensures a == b
  {
    EncodedQuota(b, numeral);
    hide EncodeEntry;
  }

  lemma EntryIsReadBack(clock: Clock, entry: Entry, a: EntryData, b: EntryData, value: Value)
    requires EntrySays(clock, entry, b, value) && EntryMatches(entry, a, value)
    ensures a == b
  {
    hide EncodeEntry, EntryMatches, Number.Yields;
    var numeral :| Written(clock, entry, b, numeral) && value == EncodeEntry(b, numeral);
    match entry
    case Conditions => ConditionIsReadBack(a, b, numeral);
    case Capabilities => CapabilityIsReadBack(a, b, numeral);
    case Quotas => QuotaIsReadBack(a, b, numeral);
  }

  lemma EntriesAreReadBack(clock: Clock, entry: Entry, a: seq<EntryData>, b: seq<EntryData>, items: seq<Value>)
    requires EntriesSay(clock, entry, b, items) && EntriesMatch(entry, a, items)
    ensures a == b
  {
    hide EntrySays, EntryMatches;
    forall i | 0 <= i < |items|
      ensures a[i] == b[i]
    {
      EntryIsReadBack(clock, entry, a[i], b[i], items[i]);
    }
  }

  lemma DataIsReadBack(clock: Clock, kind: Kind, a: StatusData, b: StatusData, value: Value)
    requires DataSays(clock, kind, b, value) && StatusMatches(a, kind, value)
    ensures a == b
  {
    hide EntriesSay, EntriesMatch, Number.Yields;
    var obj := value.members;
    Number.YieldsOnce(obj["observedGeneration"].text, a.observedGeneration, b.observedGeneration);
    EntriesAreReadBack(clock, Conditions, a.conditions, b.conditions, obj["conditions"].items);
    if kind.ProviderConnection? {
      EntriesAreReadBack(clock, Capabilities, a.capabilities, b.capabilities, obj["capabilities"].items);
      EntriesAreReadBack(clock, Quotas, a.quotaChecks, b.quotaChecks, obj["quotaChecks"].items);
    }
  }

  /** What is decoded from a document that says a status is that status. */
  lemma StatusIsReadBack(clock: Clock, a: Status, b: Status, value: Value)
    requires StatusSays(clock, b, value) && StatusDocumentMatches(a, value)
    ensures a == b
  {
    KindTexts(KindText(b.kind), b.kind);
    hide ParseKind, DataSays, StatusMatches;
    DataIsReadBack(clock, b.kind, a.data, b.data, value.members["status"]);
  }

  /** An accepted status document says what is decoded from it, and nothing else. */
  lemma DecodedStatusIsTheOne(clock: Clock, value: Value, a: Status)
    requires StatusDocumentFaults(clock, value) == {} && StatusDocumentMatches(a, value)
    ensures StatusSays(clock, a, value)
    ensures forall b | StatusSays(clock, b, value) :: b == a
  {
    hide StatusDocumentFaults, StatusDocumentMatches, StatusSays;
    StatusExactly(clock, value);
    forall b | StatusSays(clock, b, value)
      ensures b == a
    {
      StatusIsReadBack(clock, a, b, value);
    }
  }

  // ----- Every well-formed status has a document

  predicate GenerationOk(v: int) {
    0 <= v <= Number.MAX_INT64
  }

  predicate EntriesOk(clock: Clock, entry: Entry, es: seq<EntryData>) {
    && Bounded(entry, |es|)
    && forall i :: 0 <= i < |es| ==>
         EntryOk(clock, entry, es[i]) && (es[i].Condition? ==> GenerationOk(es[i].observedGeneration))
  }

  predicate StatusOk(clock: Clock, s: Status) {
    && s.apiVersion == API_VERSION && GenerationOk(s.data.observedGeneration)
    && EntriesOk(clock, Conditions, s.data.conditions) && EntriesOk(clock, Capabilities, s.data.capabilities)
    && EntriesOk(clock, Quotas, s.data.quotaChecks)
    && (!s.kind.ProviderConnection? ==> s.data.capabilities == [] && s.data.quotaChecks == [])
  }

  function Numeral(v: int): string {
    Number.Decimal(if v < 0 then 0 else v)
  }

  function EncodeEntries(es: seq<EntryData>): Value {
    List(seq(|es|, i requires 0 <= i < |es| =>
      EncodeEntry(es[i], if es[i].Condition? then Numeral(es[i].observedGeneration) else "")))
  }

  function EncodeData(kind: Kind, d: StatusData): Value {
    var number, conditions := Num(Numeral(d.observedGeneration)), EncodeEntries(d.conditions);
    Object(if kind.ProviderConnection?
           then map["observedGeneration" := number, "conditions" := conditions,
                    "capabilities" := EncodeEntries(d.capabilities), "quotaChecks" := EncodeEntries(d.quotaChecks)]
           else map["observedGeneration" := number, "conditions" := conditions])
  }

  function EncodeStatus(s: Status): Value {
    Object(map["apiVersion" := Text(s.apiVersion), "kind" := Text(KindText(s.kind)),
               "status" := EncodeData(s.kind, s.data)])
  }

  lemma EntriesAreSaid(clock: Clock, entry: Entry, es: seq<EntryData>)
    requires EntriesOk(clock, entry, es)
    ensures ListSays(clock, entry, es, EncodeEntries(es))
  {
    hide EncodeEntry, Number.Yields, Number.Decimal;
    forall i | 0 <= i < |es|
      ensures EntrySays(clock, entry, es[i], EncodeEntries(es).items[i])
    {
      var numeral := if es[i].Condition? then Numeral(es[i].observedGeneration) else "";
      if es[i].Condition? { Number.DecimalYields(es[i].observedGeneration); }
      assert Written(clock, entry, es[i], numeral);
    }
  }

  lemma StatusNames()
    ensures "observedGeneration" != "conditions" && "capabilities" != "conditions" && "quotaChecks" != "conditions"
    ensures "observedGeneration" != "capabilities" && "observedGeneration" != "quotaChecks"
            && "capabilities" != "quotaChecks"
    ensures "apiVersion" != "kind" && "apiVersion" != "status" && "kind" != "status"
  {
    assert "observedGeneration"[0] == 'o' && "conditions"[1] == 'o' && "capabilities"[1] == 'a'
           && "quotaChecks"[0] == 'q';
    assert "apiVersion"[0] == 'a' && "kind"[0] == 'k' && "status"[0] == 's';
  }

  lemma EncodedData(kind: Kind, d: StatusData)
    ensures EncodeData(kind, d).Object?
    ensures var obj := EncodeData(kind, d).members;
            && obj.Keys == (if kind.ProviderConnection?
                            then {"observedGeneration", "conditions", "capabilities", "quotaChecks"}
                            else {"observedGeneration", "conditions"})
            && obj["observedGeneration"] == Num(Numeral(d.observedGeneration))
            && obj["conditions"] == EncodeEntries(d.conditions)
            && (kind.ProviderConnection? ==>
                  obj["capabilities"] == EncodeEntries(d.capabilities)
                    && obj["quotaChecks"] == EncodeEntries(d.quotaChecks))
  {
    StatusNames();
    hide EncodeEntries, Numeral;
  }

  lemma EncodedStatus(s: Status)
    ensures EncodeStatus(s).Object?
    ensures var root := EncodeStatus(s).members;
            && root.Keys == {"apiVersion", "kind", "status"} && root["apiVersion"] == Text(s.apiVersion)
            && root["kind"] == Text(KindText(s.kind)) && root["status"] == EncodeData(s.kind, s.data)
  {
    StatusNames();
    hide EncodeData, KindText;
  }

  lemma DataIsSaid(clock: Clock, s: Status)
    requires StatusOk(clock, s)
    ensures DataSays(clock, s.kind, s.data, EncodeData(s.kind, s.data))
  {
    var d := s.data;
    EntriesAreSaid(clock, Conditions, d.conditions);
    EntriesAreSaid(clock, Capabilities, d.capabilities);
    EntriesAreSaid(clock, Quotas, d.quotaChecks);
    Number.DecimalYields(d.observedGeneration);
    EncodedData(s.kind, d);
    hide EncodeEntries, EncodeData, ListSays, Number.Yields, Number.Decimal, EntriesOk;
  }

  /** The encoding of a well-formed status is accepted, and decoding gives the status back. */
  lemma StatusRoundTrip(clock: Clock, s: Status)
    requires StatusOk(clock, s)
    ensures StatusDocumentFaults(clock, EncodeStatus(s)) == {}
    ensures forall a | StatusDocumentMatches(a, EncodeStatus(s)) :: a == s
  {
    DataIsSaid(clock, s);
    EncodedStatus(s);
    var value := EncodeStatus(s);
    hide EncodeStatus, EncodeData, DataSays, KindText, EntriesOk, StatusDocumentFaults, StatusDocumentMatches;
    assert StatusSays(clock, s, value);
    hide StatusSays;
    StatusExactly(clock, value);
    forall a | StatusDocumentMatches(a, value)
      ensures a == s
    {
      StatusIsReadBack(clock, a, s, value);
    }
  }

  lemma EntriesSaidAreOk(clock: Clock, entry: Entry, es: seq<EntryData>, value: Value)
    requires ListSays(clock, entry, es, value)
    ensures EntriesOk(clock, entry, es)
  {
    forall i | 0 <= i < |es|
      ensures EntryOk(clock, entry, es[i]) && (es[i].Condition? ==> GenerationOk(es[i].observedGeneration))
    {
      assert EntrySays(clock, entry, es[i], value.items[i]);
      var numeral :| Written(clock, entry, es[i], numeral) && value.items[i] == EncodeEntry(es[i], numeral);
    }
  }

  /** Only a well-formed status is ever said. */
  lemma SaidIsOk(clock: Clock, s: Status, value: Value)
    requires StatusSays(clock, s, value)
    ensures StatusOk(clock, s)
  {
    var obj := value.members["status"].members;
    hide ListSays, EntriesOk;
    EntriesSaidAreOk(clock, Conditions, s.data.conditions, obj["conditions"]);
    if s.kind.ProviderConnection? {
      EntriesSaidAreOk(clock, Capabilities, s.data.capabilities, obj["capabilities"]);
      EntriesSaidAreOk(clock, Quotas, s.data.quotaChecks, obj["quotaChecks"]);
    } else {
      NoneIsOk(clock, Capabilities);
      NoneIsOk(clock, Quotas);
    }
  }

  lemma NoneIsOk(clock: Clock, entry: Entry)
    ensures EntriesOk(clock, entry, [])
  {
  }
}
