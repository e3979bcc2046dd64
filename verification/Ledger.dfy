/** The privileged elevation ledger: one-use grants, proof tombstones and a time high-water mark.

    Times are nanoseconds since Go's zero time.Time, so 0 is the zero time. */
module Ledger {
  import opened Wrappers

  type Time = int
  type ID = string

  const ZERO_TIME: Time := 0
  const MILLISECOND: Time := 1_000_000
  /** The first instant of the year 10000. */
  const END_OF_TIME: Time := 315_537_897_600 * 1_000_000_000
  const MINUTE: Time := 60 * 1_000_000_000

  const MAX_TRACKED_ELEVATIONS := 1000
  const MAX_PROOF_AGE: Time := 5 * MINUTE
  const MAX_ELEVATION: Time := 15 * MINUTE
  const MAX_REASON_RUNES := 256
  const MAX_CASE_REFERENCE_RUNES := 128
  const MAX_UINT64 := 0xFFFF_FFFF_FFFF_FFFF

  datatype Result<+T> = Success(value: T) | Failure(error: Error)

  datatype Error =
    | ContextDone
    | AuthenticationInvalid
    | AuthenticationUnavailable
    | AdministratorNotRegistered
    | IdentityMismatch
    | ProofReplayed
    | DuplicateGrantID
    | LedgerFull
    | InvalidDuration
    | InvalidRequest
    | InvalidClock
    | ClockRegressed
    | GrantNotFound
    | GrantMismatch
    | GrantConsumed
    | GrantRevoked
    | GrantExpired
    | GrantScopeMismatch

  /** Checks of other packages, on identifiers, bounded texts and exact identities. */
  datatype Rules = Rules(validID: ID -> bool, validText: (string, nat) -> bool, validIdentity: (string, string) -> bool)

  datatype Action = AuditExport | OperationQuarantine | WorkRedrive | OtherAction(name: string)

  datatype TargetKind = PlatformAudit | WorkspaceAudit | OperationTarget

  datatype Target = Target(
    kind: TargetKind,
    objectID: Option<ID>,
    workspaceID: Option<ID>,
    resourceID: Option<ID>,
    environmentID: Option<ID>,
    providerConnectionID: Option<ID>
  )

  datatype Administrator = Administrator(id: ID, human: bool, issuer: string, subject: string)

  datatype Principal = Principal(human: bool, issuer: string, subject: string)

  datatype Request = Request(
    grantID: ID,
    administrator: Administrator,
    principal: Principal,
    action: Action,
    target: Target,
    reason: string,
    caseReference: string,
    requestedAt: Time,
    duration: Time
  )

  datatype Grant = Grant(
    id: ID,
    administratorID: ID,
    proofID: ID,
    action: Action,
    target: Target,
    reason: string,
    caseReference: string,
    issuedAt: Time,
    expiresAt: Time
  )

  datatype GrantState = Active | Consumed | Revoked | Expired

  datatype Record = Record(grant: Grant, state: GrantState, terminalAt: Time)

  datatype ConsumptionReceipt = ConsumptionReceipt(grant: Grant, consumedAt: Time)
  datatype RevocationReceipt = RevocationReceipt(grant: Grant, revokedAt: Time)

  /** Sequence 0 stands for a sample that could not be numbered. */
  datatype ClockSample = ClockSample(sequence: nat, observed: Time, failed: bool)

  // ----- validity

  /** UTC millisecond truncation within years 1 to 9999; the zero time is no time. */
  function Normalize(t: Time): Option<Time> {
    if t == ZERO_TIME then None
    else
      var normalized := t - t % MILLISECOND;
      if 0 <= normalized < END_OF_TIME then Some(normalized) else None
  }

  predicate CanonicalTime(t: Time) {
    Normalize(t) == Some(t)
  }

  predicate ValidOptionalID(rules: Rules, id: Option<ID>) {
    id.Some? ==> rules.validID(id.value)
  }

  predicate ValidTarget(rules: Rules, target: Target) {
    && ValidOptionalID(rules, target.objectID) && ValidOptionalID(rules, target.workspaceID)
    && ValidOptionalID(rules, target.resourceID) && ValidOptionalID(rules, target.environmentID)
    && ValidOptionalID(rules, target.providerConnectionID)
    && match target.kind
       case PlatformAudit =>
         target.objectID.None? && target.workspaceID.None? && target.resourceID.None?
         && target.environmentID.None? && target.providerConnectionID.None?
       case WorkspaceAudit =>
         && target.workspaceID.Some? && target.objectID == target.workspaceID == target.resourceID
         && target.environmentID.None? && target.providerConnectionID.None?
       case OperationTarget =>
         && target.objectID.Some? && target.workspaceID.Some? && target.resourceID.Some?
         && (target.environmentID.None? <==> target.providerConnectionID.None?)
  }

  predicate ValidActionTarget(rules: Rules, action: Action, target: Target) {
    ValidTarget(rules, target) &&
    match action
    case AuditExport => target.kind.PlatformAudit? || target.kind.WorkspaceAudit?
    case OperationQuarantine => target.kind.OperationTarget?
    case WorkRedrive => target.kind.OperationTarget?
    case OtherAction(_) => false
  }

  predicate ValidAdministrator(rules: Rules, a: Administrator) {
    rules.validID(a.id) && a.human && rules.validIdentity(a.issuer, a.subject)
  }

  predicate MatchesPrincipal(rules: Rules, a: Administrator, p: Principal) {
    && ValidAdministrator(rules, a) && rules.validIdentity(p.issuer, p.subject)
    && p.human == a.human && p.issuer == a.issuer && p.subject == a.subject
  }

  predicate ValidRequest(rules: Rules, r: Request) {
    && rules.validID(r.grantID)
    && MatchesPrincipal(rules, r.administrator, r.principal)
    && ValidActionTarget(rules, r.action, r.target)
    && rules.validText(r.reason, MAX_REASON_RUNES)
    && (r.caseReference != "" ==> rules.validText(r.caseReference, MAX_CASE_REFERENCE_RUNES))
    && CanonicalTime(r.requestedAt)
    && 0 < r.duration <= MAX_ELEVATION && r.duration % MILLISECOND == 0
  }

  predicate ValidGrant(rules: Rules, g: Grant) {
    && rules.validID(g.id) && rules.validID(g.administratorID) && rules.validID(g.proofID)
    && ValidActionTarget(rules, g.action, g.target)
    && rules.validText(g.reason, MAX_REASON_RUNES)
    && (g.caseReference != "" ==> rules.validText(g.caseReference, MAX_CASE_REFERENCE_RUNES))
    && CanonicalTime(g.issuedAt) && CanonicalTime(g.expiresAt) && g.issuedAt < g.expiresAt
    && g.expiresAt - g.issuedAt <= MAX_ELEVATION && (g.expiresAt - g.issuedAt) % MILLISECOND == 0
  }

  predicate ValidConsumptionReceipt(rules: Rules, r: ConsumptionReceipt) {
    ValidGrant(rules, r.grant) && CanonicalTime(r.consumedAt) && r.grant.issuedAt <= r.consumedAt < r.grant.expiresAt
  }

  predicate ValidRevocationReceipt(rules: Rules, r: RevocationReceipt) {
    ValidGrant(rules, r.grant) && CanonicalTime(r.revokedAt) && r.grant.issuedAt <= r.revokedAt < r.grant.expiresAt
  }

  // ----- the ledger as a value, and its locked sections as functions

  datatype State = State(
    clockSamples: nat,
    lastClockSample: nat,
    administrators: map<ID, Administrator>,
    proofs: set<ID>,
    grants: map<ID, Record>,
    highWater: Time
  )

  /** Numbers a sample at the moment its counter update takes effect. */
  function Sample(s: State, now: Time): (State, ClockSample) {
    if s.clockSamples >= MAX_UINT64 then (s, ClockSample(0, ZERO_TIME, true))
    else (s.(clockSamples := s.clockSamples + 1), ClockSample(s.clockSamples + 1, now, false))
  }

  function Advance(s: State, t: Time): State {
    if s.highWater < t then s.(highWater := t) else s
  }

  function Fence(s: State, sequence: nat): State {
    if s.lastClockSample < sequence then s.(lastClockSample := sequence) else s
  }

  function ObserveClock(s: State, t: Time): (State, Result<Time>) {
    if t < s.highWater then (s, Failure(ClockRegressed)) else (Advance(s, t), Success(t))
  }

  function ObserveIssuance(s: State, sample: ClockSample): (State, Result<Time>) {
    if sample.sequence == 0 then (s, Failure(AuthenticationUnavailable))
    else if sample.failed || Normalize(sample.observed).None? then
      (Fence(s, sample.sequence), Failure(AuthenticationUnavailable))
    else
      var t := Normalize(sample.observed).value;
      if sample.sequence <= s.lastClockSample then (Advance(s, t), Success(Advance(s, t).highWater))
      else ObserveClock(s.(lastClockSample := sample.sequence), t)
  }

  /** A verified request on its way to the lock: the proof and the authentication instant. */
  datatype Verified = Verified(request: Request, proofID: ID, authenticatedAt: Time)

  /** The verifier's answer to the exact credential and request. */
  datatype Verdict = Proven(proofID: ID, authenticatedAt: Time) | RejectedProof | NoVerdict

  /** What Issue settles before it samples the clock; it cannot touch the ledger. */
  function Prepare(rules: Rules, cancelled: bool, credentialValid: bool, request: Request, verdict: Verdict,
                   cancelledAfter: bool): (r: Result<Verified>)
    ensures r.Success? <==>
              && !cancelled && !cancelledAfter && credentialValid && ValidRequest(rules, request)
              && verdict.Proven? && rules.validID(verdict.proofID) && Normalize(verdict.authenticatedAt).Some?
    ensures r.Success? ==>
              && IsVerified(rules, r.value) && r.value.request == request && r.value.proofID == verdict.proofID
              && Normalize(verdict.authenticatedAt) == Some(r.value.authenticatedAt)
  {
    if cancelled then Failure(ContextDone)
    else if !credentialValid || !ValidRequest(rules, request) then Failure(AuthenticationInvalid)
    else if cancelledAfter then Failure(ContextDone)
    else
      match verdict
      case RejectedProof => Failure(AuthenticationInvalid)
      case NoVerdict => Failure(AuthenticationUnavailable)
      case Proven(proofID, authenticatedAt) =>
        if !rules.validID(proofID) || Normalize(authenticatedAt).None? then Failure(AuthenticationUnavailable)
        else Success(Verified(request, proofID, Normalize(authenticatedAt).value))
  }

  predicate IsVerified(rules: Rules, v: Verified) {
    ValidRequest(rules, v.request) && rules.validID(v.proofID) && 0 <= v.authenticatedAt < END_OF_TIME
  }

  /** What the issue checks, once the time is settled, before anything is recorded. */
  function Admit(s: State, rules: Rules, v: Verified, now: Time): Result<Grant> {
    var r := v.request;
    if now < r.requestedAt || now < v.authenticatedAt || now - v.authenticatedAt > MAX_PROOF_AGE then
      Failure(AuthenticationInvalid)
    else if r.administrator.id !in s.administrators then Failure(AdministratorNotRegistered)
    else if s.administrators[r.administrator.id] != r.administrator
            || !MatchesPrincipal(rules, s.administrators[r.administrator.id], r.principal) then
      Failure(IdentityMismatch)
    else if v.proofID in s.proofs then Failure(ProofReplayed)
    else if r.grantID in s.grants then Failure(DuplicateGrantID)
    else if |s.grants| >= MAX_TRACKED_ELEVATIONS then Failure(LedgerFull)
    else
      match Normalize(now + r.duration)
      case None => Failure(InvalidDuration)
      case Some(expiresAt) =>
        var grant := Grant(r.grantID, r.administrator.id, v.proofID, r.action, r.target, r.reason, r.caseReference,
                           now, expiresAt);
        if ValidGrant(rules, grant) then Success(grant) else Failure(InvalidRequest)
  }

  function Recorded(s: State, grant: Grant): State {
    s.(proofs := s.proofs + {grant.proofID}, grants := s.grants[grant.id := Record(grant, Active, ZERO_TIME)])
  }

  /** The locked part of Issue; cancelled and cancelledLate are its two looks at the context. */
  function Issue(s: State, rules: Rules, v: Verified, sample: ClockSample, cancelled: bool, cancelledLate: bool)
    : (State, Result<Grant>)
  {
    var (s1, observed) := ObserveIssuance(s, sample);
    if cancelled then (s1, Failure(ContextDone))
    else if observed.Failure? then (s1, Failure(observed.error))
    else
      var admitted := Admit(s1, rules, v, observed.value);
      if admitted.Failure? then (s1, admitted)
      else if cancelledLate then (s1, Failure(ContextDone))
      else (Recorded(s1, admitted.value), admitted)
  }

  function ExpireAt(record: Record, now: Time): Record {
    if record.state.Active? && now >= record.grant.expiresAt
    then record.(state := Expired, terminalAt := record.grant.expiresAt) else record
  }

  function TerminalError(state: GrantState): Option<Error> {
    match state
    case Active => None
    case Consumed => Some(GrantConsumed)
    case Revoked => Some(GrantRevoked)
    case Expired => Some(GrantExpired)
  }

  function PutRecord(s: State, record: Record): State {
    s.(grants := s.grants[record.grant.id := record])
  }

  /** Time, lookup and expiry, the common start of StateAt, Consume and Revoke. */
  function Settle(s: State, rules: Rules, now: Time, grant: Grant): (State, Result<Time>) {
    if !ValidGrant(rules, grant) then (s, Failure(GrantMismatch))
    else if Normalize(now).None? then (s, Failure(InvalidClock))
    else
      var t := Normalize(now).value;
      var (s1, observed) := ObserveClock(s, t);
      if observed.Failure? then (s1, observed)
      else if grant.id !in s.grants then (s1, Failure(GrantNotFound))
      else if !ValidGrant(rules, s.grants[grant.id].grant) || s.grants[grant.id].grant != grant then
        (s1, Failure(GrantMismatch))
      else (PutRecord(s1, ExpireAt(s.grants[grant.id], t)), Success(t))
  }

  function StateAt(s: State, rules: Rules, now: Time, grant: Grant): (State, Result<GrantState>) {
    var (s1, settled) := Settle(s, rules, now, grant);
    if settled.Failure? then (s1, Failure(settled.error))
    else if grant.id !in s1.grants then (s1, Failure(GrantNotFound))
    else (s1, Success(s1.grants[grant.id].state))
  }

  /** The rest of Consume on a settled record; the receipt's own check comes last. */
  function Spend(s: State, rules: Rules, id: ID, now: Time, action: Action, target: Target)
    : (State, Result<ConsumptionReceipt>)
    requires id in s.grants
  {
    var record := s.grants[id];
    var receipt := ConsumptionReceipt(record.grant, now);
    if TerminalError(record.state).Some? then (s, Failure(TerminalError(record.state).value))
    else if record.grant.action != action
            || !ValidTarget(rules, record.grant.target) || record.grant.target != target then
      (s, Failure(GrantScopeMismatch))
    else if !ValidConsumptionReceipt(rules, receipt) then (s, Failure(GrantMismatch))
    else (PutRecord(s, record.(state := Consumed, terminalAt := now)), Success(receipt))
  }

  function Consume(s: State, rules: Rules, now: Time, grant: Grant, action: Action, target: Target)
    : (State, Result<ConsumptionReceipt>)
  {
    var (s1, settled) := Settle(s, rules, now, grant);
    if settled.Failure? then (s1, Failure(settled.error))
    else if grant.id !in s1.grants then (s1, Failure(GrantNotFound))
    else Spend(s1, rules, grant.id, settled.value, action, target)
  }

  /** The rest of Revoke on a settled record. */
  function Withdraw(s: State, rules: Rules, id: ID, now: Time): (State, Result<RevocationReceipt>)
    requires id in s.grants
  {
    var record := s.grants[id];
    var receipt := RevocationReceipt(record.grant, now);
    if TerminalError(record.state).Some? then (s, Failure(TerminalError(record.state).value))
    else if !ValidRevocationReceipt(rules, receipt) then (s, Failure(GrantMismatch))
    else (PutRecord(s, record.(state := Revoked, terminalAt := now)), Success(receipt))
  }

  function Revoke(s: State, rules: Rules, now: Time, grant: Grant): (State, Result<RevocationReceipt>) {
    var (s1, settled) := Settle(s, rules, now, grant);
    if settled.Failure? then (s1, Failure(settled.error))
    else if grant.id !in s1.grants then (s1, Failure(GrantNotFound))
    else Withdraw(s1, rules, grant.id, settled.value)
  }

  // ----- the object

  /** The ledger object. Each method but TakeSample runs with the ledger lock held. */
  class ElevationLedger {
    const rules: Rules
    const administrators: map<ID, Administrator>
    var clockSamples: nat
    var lastClockSample: nat
    var proofs: set<ID>
    var grants: map<ID, Record>
    var highWater: Time

    /** The mark never lies before the zero time, which stands for no mark. */
    ghost predicate Valid()
      reads this
    {
      0 <= highWater
    }

    function View(): State
      reads this
    {
      State(clockSamples, lastClockSample, administrators, proofs, grants, highWater)
    }

    constructor (rules: Rules, administrators: map<ID, Administrator>)
      ensures View() == State(0, 0, administrators, {}, map[], ZERO_TIME) && this.rules == rules && Valid()
    {
      this.rules, this.administrators := rules, administrators;
      clockSamples, lastClockSample, proofs, grants, highWater := 0, 0, {}, map[], ZERO_TIME;
    }

    method TakeSample(now: Time) returns (sample: ClockSample)
      modifies this`clockSamples
      ensures (View(), sample) == Sample(old(View()), now)
    {
      if clockSamples >= MAX_UINT64 {
        return ClockSample(0, ZERO_TIME, true);
      }
      clockSamples := clockSamples + 1;
      return ClockSample(clockSamples, now, false);
    }

    method ObserveClockLocked(t: Time) returns (observed: Result<Time>)
      requires 0 <= t && Valid()
      modifies this`highWater
      ensures (View(), observed) == ObserveClock(old(View()), t)
    {
      if highWater != ZERO_TIME && t < highWater {
        return Failure(ClockRegressed);
      }
      if highWater == ZERO_TIME || t > highWater {
        highWater := t;
      }
      return Success(t);
    }

    method ObserveIssuanceLocked(sample: ClockSample) returns (observed: Result<Time>)
      requires Valid()
      modifies this`highWater, this`lastClockSample
      ensures (View(), observed) == ObserveIssuance(old(View()), sample)
      ensures Valid()
    {
      if sample.sequence == 0 {
        return Failure(AuthenticationUnavailable);
      }
      var normalized := Normalize(sample.observed);
      if sample.failed || normalized.None? {
        if sample.sequence > lastClockSample {
          lastClockSample := sample.sequence;
        }
        return Failure(AuthenticationUnavailable);
      }
      if sample.sequence <= lastClockSample {
        if highWater == ZERO_TIME || normalized.value > highWater {
          highWater := normalized.value;
        }
        return Success(highWater);
      }
      lastClockSample := sample.sequence;
      if highWater != ZERO_TIME && normalized.value < highWater {
        return Failure(ClockRegressed);
      }
      if highWater == ZERO_TIME || normalized.value > highWater {
        highWater := normalized.value;
      }
      return Success(normalized.value);
    }

    method IssueLocked(v: Verified, sample: ClockSample, cancelled: bool, cancelledLate: bool)
      returns (issued: Result<Grant>)
      requires Valid()
      modifies this`highWater, this`lastClockSample, this`proofs, this`grants
      ensures (View(), issued) == Issue(old(View()), rules, v, sample, cancelled, cancelledLate)
      ensures Valid()
    {
      hide ValidGrant, Normalize, MatchesPrincipal;
      var observed := ObserveIssuanceLocked(sample);
      if cancelled {
        return Failure(ContextDone);
      }
      if observed.Failure? {
        return Failure(observed.error);
      }
      var now, r := observed.value, v.request;
      if now < r.requestedAt || now < v.authenticatedAt || now - v.authenticatedAt > MAX_PROOF_AGE {
        return Failure(AuthenticationInvalid);
      }
      if r.administrator.id !in administrators {
        return Failure(AdministratorNotRegistered);
      }
      var configured := administrators[r.administrator.id];
      if configured != r.administrator || !MatchesPrincipal(rules, configured, r.principal) {
        return Failure(IdentityMismatch);
      }
      if v.proofID in proofs {
        return Failure(ProofReplayed);
      }
      if r.grantID in grants {
        return Failure(DuplicateGrantID);
      }
      if |grants| >= MAX_TRACKED_ELEVATIONS {
        return Failure(LedgerFull);
      }
      var expiresAt := Normalize(now + r.duration);
      if expiresAt.None? {
        return Failure(InvalidDuration);
      }
      var grant := Grant(r.grantID, configured.id, v.proofID, r.action, r.target, r.reason, r.caseReference, now,
                         expiresAt.value);
      if !ValidGrant(rules, grant) {
        return Failure(InvalidRequest);
      }
      if cancelledLate {
        return Failure(ContextDone);
      }
      proofs := proofs + {v.proofID};
      grants := grants[grant.id := Record(grant, Active, ZERO_TIME)];
      return Success(grant);
    }

    method SettleLocked(now: Time, grant: Grant) returns (settled: Result<Time>)
      requires Valid()
      modifies this`highWater, this`grants
      ensures (View(), settled) == Settle(old(View()), rules, now, grant)
      ensures settled.Success? ==> grant.id in grants
      ensures Valid()
    {
      if !ValidGrant(rules, grant) {
        return Failure(GrantMismatch);
      }
      var normalized := Normalize(now);
      if normalized.None? {
        return Failure(InvalidClock);
      }
      var observed := ObserveClockLocked(normalized.value);
      if observed.Failure? {
        return observed;
      }
      if grant.id !in grants {
        return Failure(GrantNotFound);
      }
      var record := grants[grant.id];
      if !ValidGrant(rules, record.grant) || record.grant != grant {
        return Failure(GrantMismatch);
      }
      if record.state.Active? && normalized.value >= record.grant.expiresAt {
        record := record.(state := Expired, terminalAt := record.grant.expiresAt);
      }
      grants := grants[grant.id := record];
      return Success(normalized.value);
    }

    method StateAtLocked(now: Time, grant: Grant) returns (state: Result<GrantState>)
      requires Valid()
      modifies this`highWater, this`grants
      ensures (View(), state) == StateAt(old(View()), rules, now, grant)
      ensures Valid()
    {
      var settled := SettleLocked(now, grant);
      if settled.Failure? {
        return Failure(settled.error);
      }
      return Success(grants[grant.id].state);
    }

    method ConsumeLocked(now: Time, grant: Grant, action: Action, target: Target)
      returns (receipt: Result<ConsumptionReceipt>)
      requires Valid()
      modifies this`highWater, this`grants
      ensures (View(), receipt) == Consume(old(View()), rules, now, grant, action, target)
      ensures Valid()
    {
      var settled := SettleLocked(now, grant);
      if settled.Failure? {
        return Failure(settled.error);
      }
      var record := grants[grant.id];
      var terminal := TerminalError(record.state);
      if terminal.Some? {
        return Failure(terminal.value);
      }
      if record.grant.action != action || !ValidTarget(rules, record.grant.target) || record.grant.target != target {
        return Failure(GrantScopeMismatch);
      }
      var evidence := ConsumptionReceipt(record.grant, settled.value);
      if !ValidConsumptionReceipt(rules, evidence) {
        return Failure(GrantMismatch);
      }
      grants := grants[grant.id := record.(state := Consumed, terminalAt := settled.value)];
      return Success(evidence);
    }

    method RevokeLocked(now: Time, grant: Grant) returns (receipt: Result<RevocationReceipt>)
      requires Valid()
      modifies this`highWater, this`grants
      ensures (View(), receipt) == Revoke(old(View()), rules, now, grant)
      ensures Valid()
    {
      var settled := SettleLocked(now, grant);
      if settled.Failure? {
        return Failure(settled.error);
      }
      var record := grants[grant.id];
      var terminal := TerminalError(record.state);
      if terminal.Some? {
        return Failure(terminal.value);
      }
      var evidence := RevocationReceipt(record.grant, settled.value);
      if !ValidRevocationReceipt(rules, evidence) {
        return Failure(GrantMismatch);
      }
      grants := grants[grant.id := record.(state := Revoked, terminalAt := settled.value)];
      return Success(evidence);
    }
  }
}
