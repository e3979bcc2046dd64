/** Every run of the elevation ledger, with clock samples taken outside the lock and
    processed in any order. */
module LedgerRuns {
  import opened Wrappers
  import opened Ledger

  datatype Op =
    | TakeSample(now: Time)
    | IssueWith(sample: nat, v: Verified, cancelled: bool, cancelledLate: bool)
    | AskState(now: Time, grant: Grant)
    | ConsumeGrant(now: Time, grant: Grant, action: Action, target: Target)
    | RevokeGrant(now: Time, grant: Grant)

  datatype Receipt = Consumption(c: ConsumptionReceipt) | Revocation(r: RevocationReceipt) {
    function Of(): Grant { if Consumption? then c.grant else r.grant }
    function At(): Time { if Consumption? then c.consumedAt else r.revokedAt }
  }

  /** The ledger with its history: samples taken, which were processed, the valid times and the sample
      numbers processed under the lock, and the grants and receipts handed out. */
  datatype History = History(
    ledger: State,
    samples: seq<ClockSample>,
    used: set<nat>,
    times: seq<Time>,
    numbers: seq<nat>,
    issued: seq<Grant>,
    receipts: seq<Receipt>
  )

  function Opening(administrators: map<ID, Administrator>): History {
    History(State(0, 0, administrators, {}, map[], ZERO_TIME), [], {}, [], [], [], [])
  }

  /** An issue runs once for each sample, and only for a verified request. */
  predicate CanIssue(h: History, rules: Rules, sample: nat, v: Verified) {
    sample < |h.samples| && sample !in h.used && IsVerified(rules, v)
  }

  function TimeOfSample(sample: ClockSample): seq<Time> {
    if sample.sequence == 0 || sample.failed || Normalize(sample.observed).None? then []
    else [Normalize(sample.observed).value]
  }

  function TimeOfCall(rules: Rules, now: Time, grant: Grant): seq<Time> {
    if !ValidGrant(rules, grant) || Normalize(now).None? then [] else [Normalize(now).value]
  }

  function Apply(h: History, rules: Rules, op: Op): History {
    match op
    case TakeSample(now) =>
      var (s, sample) := Sample(h.ledger, now);
      h.(ledger := s, samples := h.samples + [sample])
    case IssueWith(k, v, cancelled, cancelledLate) =>
      if !CanIssue(h, rules, k, v) then h
      else
        var sample := h.samples[k];
        var (s, grant) := Issue(h.ledger, rules, v, sample, cancelled, cancelledLate);
        h.(ledger := s, issued := if grant.Success? then h.issued + [grant.value] else h.issued,
           used := h.used + {k}, times := h.times + TimeOfSample(sample),
           numbers := if sample.sequence == 0 then h.numbers else h.numbers + [sample.sequence])
    case AskState(now, grant) =>
      h.(ledger := StateAt(h.ledger, rules, now, grant).0, times := h.times + TimeOfCall(rules, now, grant))
    case ConsumeGrant(now, grant, action, target) =>
      var (s, receipt) := Consume(h.ledger, rules, now, grant, action, target);
      h.(ledger := s, times := h.times + TimeOfCall(rules, now, grant),
         receipts := if receipt.Success? then h.receipts + [Consumption(receipt.value)] else h.receipts)
    case RevokeGrant(now, grant) =>
      var (s, receipt) := Revoke(h.ledger, rules, now, grant);
      h.(ledger := s, times := h.times + TimeOfCall(rules, now, grant),
         receipts := if receipt.Success? then h.receipts + [Revocation(receipt.value)] else h.receipts)
  }

  function RunFrom(h: History, rules: Rules, ops: seq<Op>): History {
    if ops == [] then h else Apply(RunFrom(h, rules, ops[..|ops| - 1]), rules, ops[|ops| - 1])
  }

  function Run(administrators: map<ID, Administrator>, rules: Rules, ops: seq<Op>): History {
    RunFrom(Opening(administrators), rules, ops)
  }

  /** The greatest element, or 0 when there is none. */
  function Greatest(xs: seq<int>): int {
    if xs == [] then 0
    else
      var rest, last := Greatest(xs[..|xs| - 1]), xs[|xs| - 1];
      if rest < last then last else rest
  }

  // ----- the invariant

  ghost predicate Clocked(h: History) {
    && h.ledger.highWater == Greatest(h.times)
    && h.ledger.lastClockSample == Greatest(h.numbers)
    && 0 <= h.ledger.highWater
  }

  /** Samples are numbered in the order they were taken, and each number is processed at most once. */
  ghost predicate Numbered(h: History) {
    && h.ledger.clockSamples <= MAX_UINT64
    && (forall k :: 0 <= k < |h.samples| ==> h.samples[k].sequence <= h.ledger.clockSamples)
    && (forall i, j :: 0 <= i < j < |h.samples| && h.samples[i].sequence != 0 && h.samples[j].sequence != 0 ==>
          h.samples[i].sequence < h.samples[j].sequence)
    && (forall k :: k in h.used ==> k < |h.samples|)
    && (forall k :: 0 <= k < |h.samples| && k !in h.used && h.samples[k].sequence != 0 ==>
          h.samples[k].sequence !in h.numbers)
    && (forall n :: n in h.numbers ==> 0 < n <= h.ledger.clockSamples)
  }

  ghost predicate RecordOk(s: State, rules: Rules, id: ID)
    requires id in s.grants
  {
    var record := s.grants[id];
    && record.grant.id == id
    && ValidGrant(rules, record.grant)
    && record.grant.issuedAt <= s.highWater
    && record.grant.proofID in s.proofs
  }

  /** As many proof tombstones as grants, within the capacity, and no proof behind two grants. */
  ghost predicate Paired(s: State) {
    && |s.proofs| == |s.grants| <= MAX_TRACKED_ELEVATIONS
    && (forall left, right | left in s.grants && right in s.grants ::
          s.grants[left].grant.proofID == s.grants[right].grant.proofID ==> left == right)
  }

  ghost predicate Sound(s: State, rules: Rules) {
    && 0 <= s.highWater
    && (forall id :: id in s.grants ==> RecordOk(s, rules, id))
    && Paired(s)
  }

  ghost predicate ReceiptOk(s: State, rules: Rules, receipt: Receipt) {
    var grant := receipt.Of();
    && grant.id in s.grants
    && s.grants[grant.id] == Record(grant, if receipt.Consumption? then Consumed else Revoked, receipt.At())
    && ValidGrant(rules, grant) && grant.issuedAt <= receipt.At() < grant.expiresAt
  }

  /** A grant has a receipt exactly when it was consumed or revoked, and then exactly one. */
  ghost predicate Receipted(h: History, rules: Rules) {
    && (forall i :: 0 <= i < |h.receipts| ==> ReceiptOk(h.ledger, rules, h.receipts[i]))
    && (forall i, j :: 0 <= i < j < |h.receipts| ==> h.receipts[i].Of().id != h.receipts[j].Of().id)
    && (forall id :: id in h.ledger.grants && h.ledger.grants[id].state in {Consumed, Revoked} ==>
          exists i :: 0 <= i < |h.receipts| && h.receipts[i].Of().id == id)
  }

  ghost predicate Inv(h: History, rules: Rules) {
    Clocked(h) && Numbered(h) && Sound(h.ledger, rules) && Receipted(h, rules)
  }

  /** Grants never disappear or change, terminal records are frozen, the mark and the tombstones only grow. */
  ghost predicate Evolves(s: State, s': State) {
    && s.highWater <= s'.highWater
    && s.proofs <= s'.proofs
    && (forall id :: id in s.grants ==>
          && id in s'.grants
          && s'.grants[id].grant == s.grants[id].grant
          && (!s.grants[id].state.Active? ==> s'.grants[id] == s.grants[id]))
  }

  // ----- single sections

  lemma GreatestAppends(xs: seq<int>, x: int)
    ensures Greatest(xs + [x]) == if Greatest(xs) < x then x else Greatest(xs)
    ensures Greatest(xs + []) == Greatest(xs)
  {
    assert (xs + [x])[..|xs|] == xs;
    assert xs + [] == xs;
  }

  lemma {:induction false} GreatestIsUpperBound(xs: seq<int>, x: int)
    requires x in xs
    ensures x <= Greatest(xs)
  {
    var front := xs[..|xs| - 1];
    if x in front {
      GreatestIsUpperBound(front, x);
    } else {
      assert xs == front + [xs[|xs| - 1]];
    }
  }

  lemma {:induction false} GreatestIsReached(xs: seq<int>)
    requires Greatest(xs) != 0
    ensures Greatest(xs) in xs
  {
    var front := xs[..|xs| - 1];
    if Greatest(front) >= xs[|xs| - 1] {
      GreatestIsReached(front);
    }
  }

  /** The mark takes every valid time up, whatever the outcome. */
  lemma ObserveIssuanceMarks(s: State, sample: ClockSample)
    requires 0 <= s.highWater
    ensures var s' := ObserveIssuance(s, sample).0; var time := TimeOfSample(sample);
            && s' == s.(highWater := s'.highWater, lastClockSample := s'.lastClockSample)
            && s'.lastClockSample ==
               (if s.lastClockSample < sample.sequence then sample.sequence else s.lastClockSample)
            && s'.highWater == (if time != [] && s.highWater < time[0] then time[0] else s.highWater)
    ensures var (s', observed) := ObserveIssuance(s, sample);
            observed.Success? ==> observed.value == s'.highWater
  {
  }

  lemma NormalizedIsCanonical(t: Time)
    ensures Normalize(t).Some? ==>
            0 <= Normalize(t).value && (Normalize(t).value > 0 ==> CanonicalTime(Normalize(t).value))
  {
  }

  /** What settling does to a ledger whose records are filed under their own ID. */
  ghost predicate Settled(s: State, s': State, rules: Rules, now: Time, grant: Grant, settled: Result<Time>) {
    var time := TimeOfCall(rules, now, grant);
    && s' == s.(highWater := s'.highWater, grants := s'.grants) && s'.grants.Keys == s.grants.Keys
    && s'.highWater == (if time != [] && s.highWater < time[0] then time[0] else s.highWater)
    && (forall id :: id in s.grants ==>
          || s'.grants[id] == s.grants[id]
          || (s.grants[id].state.Active?
              && s'.grants[id] == s.grants[id].(state := Expired, terminalAt := s.grants[id].grant.expiresAt)))
    && (settled.Success? ==>
          && grant.id in s.grants && s.grants[grant.id].grant == grant && ValidGrant(rules, grant)
          && time == [settled.value] && settled.value == s'.highWater
          && (s'.grants[grant.id].state.Active? ==> settled.value < grant.expiresAt))
    && (settled == Failure(GrantMismatch) <==>
          !ValidGrant(rules, grant) || (time != [] && s.highWater <= time[0] && grant.id in s.grants
                                        && s.grants[grant.id].grant != grant))
  }

  lemma SettleShape(s: State, rules: Rules, now: Time, grant: Grant)
    requires grant.id in s.grants ==>
             s.grants[grant.id].grant.id == grant.id && ValidGrant(rules, s.grants[grant.id].grant)
    ensures var (s', settled) := Settle(s, rules, now, grant); Settled(s, s', rules, now, grant, settled)
  {
  }

  lemma SettleEffect(s: State, rules: Rules, now: Time, grant: Grant)
    requires Sound(s, rules)
    ensures var (s', settled) := Settle(s, rules, now, grant);
            Sound(s', rules) && Evolves(s, s') && Settled(s, s', rules, now, grant, settled)
  {
    assert grant.id in s.grants ==> RecordOk(s, rules, grant.id);
    SettleShape(s, rules, now, grant);
    SettledIsSound(s, Settle(s, rules, now, grant).0, rules, now, grant, Settle(s, rules, now, grant).1);
  }

  lemma SettledIsSound(s: State, s': State, rules: Rules, now: Time, grant: Grant, settled: Result<Time>)
    requires Sound(s, rules) && Settled(s, s', rules, now, grant, settled)
    ensures Sound(s', rules) && Evolves(s, s')
  {
    SameShape(s, s', rules);
  }

  /** Changing record states only, with the mark not falling back, keeps the ledger sound. */
  lemma SameShape(s: State, s': State, rules: Rules)
    requires Sound(s, rules) && s.highWater <= s'.highWater && s'.proofs == s.proofs
    requires s'.grants.Keys == s.grants.Keys
    requires forall id :: id in s.grants ==> s'.grants[id].grant == s.grants[id].grant
    ensures Sound(s', rules)
  {
    assert |s'.grants| == |s'.grants.Keys| && |s.grants| == |s.grants.Keys|;
    forall id | id in s'.grants
      ensures RecordOk(s', rules, id)
    {
      assert RecordOk(s, rules, id);
    }
  }

  /** On an active, unexpired record the receipts that Consume and Revoke build pass their own check. */
  lemma ReceiptsAreValid(s: State, s': State, rules: Rules, now: Time, grant: Grant, settled: Result<Time>)
    requires Sound(s', rules) && Settled(s, s', rules, now, grant, settled)
    requires settled.Success? && s'.grants[grant.id].state.Active?
    ensures ValidConsumptionReceipt(rules, ConsumptionReceipt(grant, settled.value))
    ensures ValidRevocationReceipt(rules, RevocationReceipt(grant, settled.value))
  {
    assert RecordOk(s', rules, grant.id);
    NormalizedIsCanonical(now);
  }

  /** The grant is invalid or differs from the record it names, at a time the clock check lets through. */
  ghost predicate Foreign(s: State, rules: Rules, now: Time, grant: Grant) {
    var time := TimeOfCall(rules, now, grant);
    || !ValidGrant(rules, grant)
    || (time != [] && s.highWater <= time[0] && grant.id in s.grants && s.grants[grant.id].grant != grant)
  }

  /** Spending a settled record succeeds exactly when it is active and the scope matches. */
  lemma SpendOutcome(s: State, rules: Rules, grant: Grant, now: Time, action: Action, target: Target)
    requires grant.id in s.grants && s.grants[grant.id].grant == grant
    requires s.grants[grant.id].state.Active? ==> ValidConsumptionReceipt(rules, ConsumptionReceipt(grant, now))
    ensures var (s', receipt) := Spend(s, rules, grant.id, now, action, target);
            && receipt != Failure(GrantMismatch)
            && (receipt.Success? <==>
                  s.grants[grant.id].state.Active? && grant.action == action && grant.target == target)
            && (receipt.Success? ==> receipt.value == ConsumptionReceipt(grant, now)
                                     && s' == PutRecord(s, Record(grant, Consumed, now)))
            && (receipt.Failure? ==> s' == s)
  {
  }

  lemma WithdrawOutcome(s: State, rules: Rules, grant: Grant, now: Time)
    requires grant.id in s.grants && s.grants[grant.id].grant == grant
    requires s.grants[grant.id].state.Active? ==> ValidRevocationReceipt(rules, RevocationReceipt(grant, now))
    ensures var (s', receipt) := Withdraw(s, rules, grant.id, now);
            && receipt != Failure(GrantMismatch)
            && (receipt.Success? <==> s.grants[grant.id].state.Active?)
            && (receipt.Success? ==> receipt.value == RevocationReceipt(grant, now)
                                     && s' == PutRecord(s, Record(grant, Revoked, now)))
            && (receipt.Failure? ==> s' == s)
  {
  }

  /** Consume reports a mismatch exactly for a foreign grant: its own receipt check never fires. */
  lemma ConsumeMismatchMeansForeign(s: State, rules: Rules, now: Time, grant: Grant, action: Action, target: Target)
    requires Sound(s, rules)
    ensures Consume(s, rules, now, grant, action, target).1 == Failure(GrantMismatch) <==> Foreign(s, rules, now, grant)
  {
    var (s', settled) := Settle(s, rules, now, grant);
    SettleEffect(s, rules, now, grant);
    if settled.Success? {
      if s'.grants[grant.id].state.Active? {
        ReceiptsAreValid(s, s', rules, now, grant, settled);
      }
      SpendOutcome(s', rules, grant, settled.value, action, target);
    }
  }

  /** Likewise for Revoke. */
  lemma RevokeMismatchMeansForeign(s: State, rules: Rules, now: Time, grant: Grant)
    requires Sound(s, rules)
    ensures Revoke(s, rules, now, grant).1 == Failure(GrantMismatch) <==> Foreign(s, rules, now, grant)
  {
    var (s', settled) := Settle(s, rules, now, grant);
    SettleEffect(s, rules, now, grant);
    if settled.Success? {
      if s'.grants[grant.id].state.Active? {
        ReceiptsAreValid(s, s', rules, now, grant, settled);
      }
      WithdrawOutcome(s', rules, grant, settled.value);
    }
  }

  /** What an issue does: it only moves the fences, or it also adds one tombstone and one active grant
      issued exactly at the mark. */
  ghost predicate Issued(s: State, s': State, rules: Rules, v: Verified, issued: Result<Grant>) {
    && s'.clockSamples == s.clockSamples && s'.administrators == s.administrators && s.highWater <= s'.highWater
    && (issued.Failure? ==> s'.proofs == s.proofs && s'.grants == s.grants)
    && (issued.Success? ==>
          var grant := issued.value;
          && grant.id == v.request.grantID && grant.id !in s.grants
          && grant.proofID == v.proofID && grant.proofID !in s.proofs
          && |s.grants| < MAX_TRACKED_ELEVATIONS && ValidGrant(rules, grant)
          && grant.issuedAt == s'.highWater
          && s'.proofs == s.proofs + {grant.proofID}
          && s'.grants == s.grants[grant.id := Record(grant, Active, ZERO_TIME)])
  }

  lemma IssueShape(s: State, rules: Rules, v: Verified, sample: ClockSample, cancelled: bool, cancelledLate: bool)
    requires 0 <= s.highWater
    ensures var (s', issued) := Issue(s, rules, v, sample, cancelled, cancelledLate);
            && Issued(s, s', rules, v, issued)
            && s'.highWater == ObserveIssuance(s, sample).0.highWater
            && s'.lastClockSample == ObserveIssuance(s, sample).0.lastClockSample
  {
    ObserveIssuanceMarks(s, sample);
    var (s1, observed) := ObserveIssuance(s, sample);
    if observed.Success? {
      assert Admit(s1, rules, v, observed.value).Success? ==> v.proofID !in s1.proofs;
    }
  }

  lemma IssuedRecords(s: State, s': State, rules: Rules, v: Verified, issued: Result<Grant>)
    requires Sound(s, rules) && Issued(s, s', rules, v, issued)
    ensures forall id :: id in s'.grants ==> RecordOk(s', rules, id)
  {
    forall id | id in s'.grants
      ensures RecordOk(s', rules, id)
    {
      if id in s.grants {
        assert RecordOk(s, rules, id);
      }
    }
  }

  lemma IssuedPaired(s: State, s': State, rules: Rules, v: Verified, issued: Result<Grant>)
    requires Sound(s, rules) && Issued(s, s', rules, v, issued)
    ensures Paired(s')
  {
    forall left, right | left in s'.grants && right in s'.grants
      && s'.grants[left].grant.proofID == s'.grants[right].grant.proofID
      ensures left == right
    {
      assert left in s.grants ==> RecordOk(s, rules, left);
      assert right in s.grants ==> RecordOk(s, rules, right);
    }
  }

  lemma IssuedEvolves(s: State, s': State, rules: Rules, v: Verified, issued: Result<Grant>)
    requires Issued(s, s', rules, v, issued)
    ensures Evolves(s, s')
  {
  }

  lemma IssueEffect(s: State, rules: Rules, v: Verified, sample: ClockSample, cancelled: bool, cancelledLate: bool)
    requires Sound(s, rules)
    ensures var (s', issued) := Issue(s, rules, v, sample, cancelled, cancelledLate); var time := TimeOfSample(sample);
            && Issued(s, s', rules, v, issued) && Sound(s', rules) && Evolves(s, s')
            && s'.lastClockSample ==
               (if s.lastClockSample < sample.sequence then sample.sequence else s.lastClockSample)
            && s'.highWater == (if time != [] && s.highWater < time[0] then time[0] else s.highWater)
  {
    var (s', issued) := Issue(s, rules, v, sample, cancelled, cancelledLate);
    IssueShape(s, rules, v, sample, cancelled, cancelledLate);
    ObserveIssuanceMarks(s, sample);
    IssuedRecords(s, s', rules, v, issued);
    IssuedPaired(s, s', rules, v, issued);
    IssuedEvolves(s, s', rules, v, issued);
  }

  /** What the three calls on an existing grant do to the ledger. */
  ghost predicate Called(s: State, s': State, rules: Rules, now: Time, grant: Grant) {
    var time := TimeOfCall(rules, now, grant);
    && Sound(s', rules) && Evolves(s, s') && s' == s.(highWater := s'.highWater, grants := s'.grants)
    && s'.grants.Keys == s.grants.Keys
    && s'.highWater == (if time != [] && s.highWater < time[0] then time[0] else s.highWater)
  }

  /** Only this record may have become consumed or revoked. */
  ghost predicate OnlyTerminated(s: State, s': State, id: ID)
    requires s'.grants.Keys == s.grants.Keys
  {
    forall other :: other in s.grants && other != id && s'.grants[other].state in {Consumed, Revoked} ==>
      s'.grants[other] == s.grants[other]
  }

  lemma PutTerminal(s: State, s1: State, rules: Rules, now: Time, grant: Grant, settled: Result<Time>,
                    state: GrantState)
    requires Sound(s, rules) && Settled(s, s1, rules, now, grant, settled) && settled.Success?
    requires s1.grants[grant.id].state.Active?
    ensures var s' := PutRecord(s1, Record(grant, state, settled.value));
            Called(s, s', rules, now, grant) && OnlyTerminated(s, s', grant.id)
  {
    hide Sound, Evolves, OnlyTerminated;
    var s' := PutRecord(s1, Record(grant, state, settled.value));
    assert s.grants[grant.id].state.Active?;
    TerminatedEvolves(s, s1, s', rules, now, grant, settled);
    SameShape(s, s', rules);
  }

  lemma TerminatedEvolves(s: State, s1: State, s': State, rules: Rules, now: Time, grant: Grant, settled: Result<Time>)
    requires Settled(s, s1, rules, now, grant, settled) && settled.Success? && s.grants[grant.id].state.Active?
    requires s'.highWater == s1.highWater && s'.proofs == s1.proofs && s'.grants.Keys == s1.grants.Keys
    requires s'.grants[grant.id].grant == grant
    requires forall other :: other in s1.grants && other != grant.id ==> s'.grants[other] == s1.grants[other]
    ensures Evolves(s, s') && OnlyTerminated(s, s', grant.id)
  {
  }

  lemma ConsumeEffect(s: State, rules: Rules, now: Time, grant: Grant, action: Action, target: Target)
    requires Sound(s, rules)
    ensures var (s', receipt) := Consume(s, rules, now, grant, action, target);
            && Called(s, s', rules, now, grant)
            && (receipt.Failure? ==> forall id :: id in s.grants && s'.grants[id].state in {Consumed, Revoked} ==>
                                       s'.grants[id] == s.grants[id])
            && (receipt.Success? ==>
                  && grant.id in s.grants && s.grants[grant.id].state.Active? && OnlyTerminated(s, s', grant.id)
                  && receipt.value.grant == grant && ReceiptOk(s', rules, Consumption(receipt.value)))
  {
    var (s1, settled) := Settle(s, rules, now, grant);
    SettleEffect(s, rules, now, grant);
    if settled.Success? {
      if s1.grants[grant.id].state.Active? {
        ReceiptsAreValid(s, s1, rules, now, grant, settled);
        PutTerminal(s, s1, rules, now, grant, settled, Consumed);
      }
      SpendOutcome(s1, rules, grant, settled.value, action, target);
    }
  }

  lemma RevokeEffect(s: State, rules: Rules, now: Time, grant: Grant)
    requires Sound(s, rules)
    ensures var (s', receipt) := Revoke(s, rules, now, grant);
            && Called(s, s', rules, now, grant)
            && (receipt.Failure? ==> forall id :: id in s.grants && s'.grants[id].state in {Consumed, Revoked} ==>
                                       s'.grants[id] == s.grants[id])
            && (receipt.Success? ==>
                  && grant.id in s.grants && s.grants[grant.id].state.Active? && OnlyTerminated(s, s', grant.id)
                  && receipt.value.grant == grant && ReceiptOk(s', rules, Revocation(receipt.value)))
  {
    var (s1, settled) := Settle(s, rules, now, grant);
    SettleEffect(s, rules, now, grant);
    if settled.Success? {
      if s1.grants[grant.id].state.Active? {
        ReceiptsAreValid(s, s1, rules, now, grant, settled);
        PutTerminal(s, s1, rules, now, grant, settled, Revoked);
      }
      WithdrawOutcome(s1, rules, grant, settled.value);
    }
  }

  // ----- every run

  lemma SampleKeeps(h: History, rules: Rules, now: Time)
    requires Inv(h, rules)
    ensures Inv(Apply(h, rules, TakeSample(now)), rules)
  {
    var h' := Apply(h, rules, TakeSample(now));
    forall id | id in h'.ledger.grants
      ensures RecordOk(h'.ledger, rules, id)
    {
      assert RecordOk(h.ledger, rules, id);
    }
    forall i | 0 <= i < |h'.receipts|
      ensures ReceiptOk(h'.ledger, rules, h'.receipts[i])
    {
      assert ReceiptOk(h.ledger, rules, h.receipts[i]);
    }
  }

  lemma ReceiptsStay(s: State, s': State, rules: Rules, receipts: seq<Receipt>)
    requires Evolves(s, s')
    requires forall i :: 0 <= i < |receipts| ==> ReceiptOk(s, rules, receipts[i])
    ensures forall i :: 0 <= i < |receipts| ==> ReceiptOk(s', rules, receipts[i])
  {
    forall i | 0 <= i < |receipts|
      ensures ReceiptOk(s', rules, receipts[i])
    {
      assert ReceiptOk(s, rules, receipts[i]);
    }
  }

  /** A used sample's number joins the processed ones; no unused sample shares it. */
  lemma IssueNumbers(h: History, h': History, k: nat)
    requires Numbered(h) && k < |h.samples| && k !in h.used
    requires h'.samples == h.samples && h'.used == h.used + {k}
    requires h'.numbers == if h.samples[k].sequence == 0 then h.numbers else h.numbers + [h.samples[k].sequence]
    requires h'.ledger.clockSamples == h.ledger.clockSamples
    ensures Numbered(h')
  {
    forall i | 0 <= i < |h.samples| && i !in h'.used && h.samples[i].sequence != 0
      ensures h.samples[i].sequence !in h'.numbers
    {
      assert h.samples[i].sequence !in h.numbers;
      assert i < k || k < i;
    }
  }

  lemma IssueClock(h: History, h': History, sample: ClockSample)
    requires Clocked(h)
    requires h'.times == h.times + TimeOfSample(sample)
    requires h'.numbers == if sample.sequence == 0 then h.numbers else h.numbers + [sample.sequence]
    requires h'.ledger.lastClockSample ==
             if h.ledger.lastClockSample < sample.sequence then sample.sequence else h.ledger.lastClockSample
    requires var time := TimeOfSample(sample);
             h'.ledger.highWater == if time != [] && h.ledger.highWater < time[0] then time[0] else h.ledger.highWater
    ensures Clocked(h')
  {
    GreatestAppends(h.numbers, sample.sequence);
    var time := TimeOfSample(sample);
    GreatestAppends(h.times, if time == [] then 0 else time[0]);
  }

  lemma IssueReceipts(h: History, h': History, rules: Rules, v: Verified, issued: Result<Grant>)
    requires Receipted(h, rules) && Issued(h.ledger, h'.ledger, rules, v, issued) && h'.receipts == h.receipts
    ensures Receipted(h', rules)
  {
    IssuedEvolves(h.ledger, h'.ledger, rules, v, issued);
    ReceiptsStay(h.ledger, h'.ledger, rules, h.receipts);
  }

  lemma IssueKeeps(h: History, rules: Rules, k: nat, v: Verified, cancelled: bool, cancelledLate: bool)
    requires Inv(h, rules) && CanIssue(h, rules, k, v)
    ensures Inv(Apply(h, rules, IssueWith(k, v, cancelled, cancelledLate)), rules)
  {
    var h' := Apply(h, rules, IssueWith(k, v, cancelled, cancelledLate));
    hide Issue, Sound, Evolves;
    IssueEffect(h.ledger, rules, v, h.samples[k], cancelled, cancelledLate);
    hide Issued, Numbered, Receipted;
    IssueNumbers(h, h', k);
    IssueClock(h, h', h.samples[k]);
    IssueReceipts(h, h', rules, v, Issue(h.ledger, rules, v, h.samples[k], cancelled, cancelledLate).1);
  }

  /** The common part of the three calls: the clock facts and the old receipts. */
  lemma CallKeeps(h: History, h': History, rules: Rules, now: Time, grant: Grant)
    requires Inv(h, rules) && Called(h.ledger, h'.ledger, rules, now, grant)
    requires h'.samples == h.samples && h'.used == h.used && h'.numbers == h.numbers
    requires h'.times == h.times + TimeOfCall(rules, now, grant)
    ensures Clocked(h') && Numbered(h') && Sound(h'.ledger, rules)
    ensures forall i :: 0 <= i < |h.receipts| ==> ReceiptOk(h'.ledger, rules, h.receipts[i])
  {
    var time := TimeOfCall(rules, now, grant);
    GreatestAppends(h.times, if time == [] then 0 else time[0]);
    ReceiptsStay(h.ledger, h'.ledger, rules, h.receipts);
  }

  lemma NoReceiptKeeps(h: History, h': History, rules: Rules)
    requires Receipted(h, rules) && h'.receipts == h.receipts && h'.ledger.grants.Keys == h.ledger.grants.Keys
    requires forall i :: 0 <= i < |h.receipts| ==> ReceiptOk(h'.ledger, rules, h.receipts[i])
    requires forall id :: id in h.ledger.grants && h'.ledger.grants[id].state in {Consumed, Revoked} ==>
               h'.ledger.grants[id] == h.ledger.grants[id]
    ensures Receipted(h', rules)
  {
  }

  lemma NewReceiptKeeps(h: History, h': History, rules: Rules, receipt: Receipt)
    requires Receipted(h, rules) && h'.receipts == h.receipts + [receipt]
    requires h'.ledger.grants.Keys == h.ledger.grants.Keys
    requires forall i :: 0 <= i < |h.receipts| ==> ReceiptOk(h'.ledger, rules, h.receipts[i])
    requires ReceiptOk(h'.ledger, rules, receipt) && receipt.Of().id in h.ledger.grants
    requires h.ledger.grants[receipt.Of().id].state.Active? && OnlyTerminated(h.ledger, h'.ledger, receipt.Of().id)
    ensures Receipted(h', rules)
  {
    forall i | 0 <= i < |h.receipts|
      ensures h.receipts[i].Of().id != receipt.Of().id
    {
      assert ReceiptOk(h.ledger, rules, h.receipts[i]);
    }
    forall id | id in h'.ledger.grants && h'.ledger.grants[id].state in {Consumed, Revoked}
      ensures exists i :: 0 <= i < |h'.receipts| && h'.receipts[i].Of().id == id
    {
      if id == receipt.Of().id {
        assert h'.receipts[|h.receipts|].Of().id == id;
      } else {
        var i :| 0 <= i < |h.receipts| && h.receipts[i].Of().id == id;
        assert h'.receipts[i].Of().id == id;
      }
    }
  }

  lemma ConsumeKeeps(h: History, rules: Rules, now: Time, grant: Grant, action: Action, target: Target)
    requires Inv(h, rules)
    ensures Inv(Apply(h, rules, ConsumeGrant(now, grant, action, target)), rules)
  {
    hide Consume, Sound, Clocked, Numbered, Receipted, ReceiptOk, Evolves, TimeOfCall, OnlyTerminated;
    var h' := Apply(h, rules, ConsumeGrant(now, grant, action, target));
    var receipt := Consume(h.ledger, rules, now, grant, action, target).1;
    ConsumeEffect(h.ledger, rules, now, grant, action, target);
    CallKeeps(h, h', rules, now, grant);
    if receipt.Success? {
      NewReceiptKeeps(h, h', rules, Consumption(receipt.value));
    } else {
      NoReceiptKeeps(h, h', rules);
    }
  }

  lemma RevokeKeeps(h: History, rules: Rules, now: Time, grant: Grant)
    requires Inv(h, rules)
    ensures Inv(Apply(h, rules, RevokeGrant(now, grant)), rules)
  {
    hide Revoke, Sound, Clocked, Numbered, Receipted, ReceiptOk, Evolves, TimeOfCall, OnlyTerminated;
    var h' := Apply(h, rules, RevokeGrant(now, grant));
    var receipt := Revoke(h.ledger, rules, now, grant).1;
    RevokeEffect(h.ledger, rules, now, grant);
    CallKeeps(h, h', rules, now, grant);
    if receipt.Success? {
      NewReceiptKeeps(h, h', rules, Revocation(receipt.value));
    } else {
      NoReceiptKeeps(h, h', rules);
    }
  }

  lemma StateAtEffect(s: State, rules: Rules, now: Time, grant: Grant)
    requires Sound(s, rules)
    ensures var s' := StateAt(s, rules, now, grant).0;
            && Called(s, s', rules, now, grant)
            && (forall id :: id in s.grants && s'.grants[id].state in {Consumed, Revoked} ==>
                s'.grants[id] == s.grants[id])
  {
    SettleEffect(s, rules, now, grant);
  }

  lemma AskKeeps(h: History, rules: Rules, now: Time, grant: Grant)
    requires Inv(h, rules)
    ensures Inv(Apply(h, rules, AskState(now, grant)), rules)
  {
    var h' := Apply(h, rules, AskState(now, grant));
    StateAtEffect(h.ledger, rules, now, grant);
    CallKeeps(h, h', rules, now, grant);
    NoReceiptKeeps(h, h', rules);
  }

  lemma ApplyKeeps(h: History, rules: Rules, op: Op)
    requires Inv(h, rules)
    ensures Inv(Apply(h, rules, op), rules)
  {
    match op
    case TakeSample(now) => SampleKeeps(h, rules, now);
    case IssueWith(k, v, cancelled, cancelledLate) =>
      if CanIssue(h, rules, k, v) {
        IssueKeeps(h, rules, k, v, cancelled, cancelledLate);
      }
    case AskState(now, grant) => AskKeeps(h, rules, now, grant);
    case ConsumeGrant(now, grant, action, target) => ConsumeKeeps(h, rules, now, grant, action, target);
    case RevokeGrant(now, grant) => RevokeKeeps(h, rules, now, grant);
  }

  lemma {:induction false} RunKeeps(h: History, rules: Rules, ops: seq<Op>)
    requires Inv(h, rules)
    ensures Inv(RunFrom(h, rules, ops), rules)
  {
    if ops != [] {
      RunKeeps(h, rules, ops[..|ops| - 1]);
      ApplyKeeps(RunFrom(h, rules, ops[..|ops| - 1]), rules, ops[|ops| - 1]);
    }
  }

  lemma OpeningIsSound(administrators: map<ID, Administrator>, rules: Rules)
    ensures Inv(Opening(administrators), rules)
  {
  }

  lemma RunIsSound(administrators: map<ID, Administrator>, rules: Rules, ops: seq<Op>)
    ensures Inv(Run(administrators, rules, ops), rules)
  {
    OpeningIsSound(administrators, rules);
    RunKeeps(Opening(administrators), rules, ops);
  }

  lemma OneMoreOp(administrators: map<ID, Administrator>, rules: Rules, ops: seq<Op>, op: Op)
    ensures Run(administrators, rules, ops + [op]) == Apply(Run(administrators, rules, ops), rules, op)
  {
    assert (ops + [op])[..|ops|] == ops;
  }

  lemma {:induction false} RunEvolves(h: History, rules: Rules, ops: seq<Op>)
    requires Inv(h, rules)
    ensures Evolves(h.ledger, RunFrom(h, rules, ops).ledger)
  {
    if ops != [] {
      var h1 := RunFrom(h, rules, ops[..|ops| - 1]);
      RunEvolves(h, rules, ops[..|ops| - 1]);
      RunKeeps(h, rules, ops[..|ops| - 1]);
      ApplyEvolves(h1, rules, ops[|ops| - 1]);
    }
  }

  lemma ApplyEvolves(h: History, rules: Rules, op: Op)
    requires Inv(h, rules)
    ensures Evolves(h.ledger, Apply(h, rules, op).ledger)
  {
    EvolvesToItself(h.ledger);
    InvIsSound(h, rules);
    hide Evolves, Inv, Sound, Issue, StateAt, Consume, Revoke;
    match op
    case TakeSample(now) => SampleEvolves(h.ledger, now);
    case IssueWith(k, v, cancelled, cancelledLate) =>
      if CanIssue(h, rules, k, v) {
        IssueEvolves(h.ledger, rules, v, h.samples[k], cancelled, cancelledLate);
      }
    case AskState(now, grant) => StateAtEvolves(h.ledger, rules, now, grant);
    case ConsumeGrant(now, grant, action, target) => ConsumeEvolves(h.ledger, rules, now, grant, action, target);
    case RevokeGrant(now, grant) => RevokeEvolves(h.ledger, rules, now, grant);
  }

  lemma IssueEvolves(s: State, rules: Rules, v: Verified, sample: ClockSample, cancelled: bool, cancelledLate: bool)
    requires Sound(s, rules)
    ensures Evolves(s, Issue(s, rules, v, sample, cancelled, cancelledLate).0)
  {
    hide Sound, Evolves, Issue, Issued;
    IssueEffect(s, rules, v, sample, cancelled, cancelledLate);
  }

  lemma StateAtEvolves(s: State, rules: Rules, now: Time, grant: Grant)
    requires Sound(s, rules)
    ensures Evolves(s, StateAt(s, rules, now, grant).0)
  {
    hide Sound, Evolves, StateAt;
    StateAtEffect(s, rules, now, grant);
  }

  lemma ConsumeEvolves(s: State, rules: Rules, now: Time, grant: Grant, action: Action, target: Target)
    requires Sound(s, rules)
    ensures Evolves(s, Consume(s, rules, now, grant, action, target).0)
  {
    hide Sound, Evolves, Consume;
    ConsumeEffect(s, rules, now, grant, action, target);
  }

  lemma RevokeEvolves(s: State, rules: Rules, now: Time, grant: Grant)
    requires Sound(s, rules)
    ensures Evolves(s, Revoke(s, rules, now, grant).0)
  {
    hide Sound, Evolves, Revoke;
    RevokeEffect(s, rules, now, grant);
  }

  lemma EvolvesToItself(s: State)
    ensures Evolves(s, s)
  {
  }

  lemma SampleEvolves(s: State, now: Time)
    ensures Evolves(s, Sample(s, now).0)
  {
  }

  lemma InvIsSound(h: History, rules: Rules)
    requires Inv(h, rules)
    ensures Sound(h.ledger, rules)
  {
  }

  // ----- what the ledger promises

  /** The mark is the maximum of all valid times processed under the lock, in any order of arrival. */
  lemma MarkIsGreatestTime(administrators: map<ID, Administrator>, rules: Rules, ops: seq<Op>)
    ensures var h := Run(administrators, rules, ops);
            && (forall t :: t in h.times ==> t <= h.ledger.highWater)
            && (h.ledger.highWater != ZERO_TIME ==> h.ledger.highWater in h.times)
  {
    RunIsSound(administrators, rules, ops);
    var h := Run(administrators, rules, ops);
    forall t | t in h.times
      ensures t <= h.ledger.highWater
    {
      GreatestIsUpperBound(h.times, t);
    }
    if h.ledger.highWater != ZERO_TIME {
      GreatestIsReached(h.times);
    }
  }

  lemma IssuedAtTheMark(s: State, rules: Rules, v: Verified, sample: ClockSample, cancelled: bool, cancelledLate: bool)
    requires Sound(s, rules)
    ensures var (s', issued) := Issue(s, rules, v, sample, cancelled, cancelledLate);
            issued.Success? ==>
              && issued.value.issuedAt == s'.highWater
              && TimeOfSample(sample) != []
              && s'.highWater ==
                 (if s.highWater < TimeOfSample(sample)[0] then TimeOfSample(sample)[0] else s.highWater)
  {
    hide Evolves, Issued;
    IssueEffect(s, rules, v, sample, cancelled, cancelledLate);
  }

  /** A grant carries the greatest of all times processed up to its issue, its own sample included. */
  lemma GrantsAreIssuedAtTheMark(administrators: map<ID, Administrator>, rules: Rules, ops: seq<Op>,
                                 k: nat, v: Verified, cancelled: bool, cancelledLate: bool)
    requires CanIssue(Run(administrators, rules, ops), rules, k, v)
    ensures var h := Run(administrators, rules, ops);
            var issued := Issue(h.ledger, rules, v, h.samples[k], cancelled, cancelledLate).1;
            var h' := Apply(h, rules, IssueWith(k, v, cancelled, cancelledLate));
            issued.Success? ==>
              && issued.value.issuedAt == h'.ledger.highWater && issued.value.issuedAt in h'.times
              && (forall t :: t in h'.times ==> t <= issued.value.issuedAt)
              && TimeOfSample(h.samples[k]) != [] && h'.times == h.times + TimeOfSample(h.samples[k])
  {
    hide Run, Inv, Sound, Issue;
    RunIsSound(administrators, rules, ops);
    var h := Run(administrators, rules, ops);
    InvIsSound(h, rules);
    var op := IssueWith(k, v, cancelled, cancelledLate);
    OneMoreOp(administrators, rules, ops, op);
    MarkIsGreatestTime(administrators, rules, ops + [op]);
    IssuedAtTheMark(h.ledger, rules, v, h.samples[k], cancelled, cancelledLate);
  }

  /** A sample is refused as regressed exactly when it is numbered after every processed one and its time
      lies before the mark. A late arrival never is. */
  lemma RegressedExactlyWhenNewestAndBehind(administrators: map<ID, Administrator>, rules: Rules, ops: seq<Op>,
                                            k: nat, v: Verified, cancelled: bool, cancelledLate: bool)
    requires CanIssue(Run(administrators, rules, ops), rules, k, v)
    ensures var h := Run(administrators, rules, ops); var sample := h.samples[k];
            Issue(h.ledger, rules, v, sample, cancelled, cancelledLate).1 == Failure(ClockRegressed) <==>
              && !cancelled
              && TimeOfSample(sample) != [] && TimeOfSample(sample)[0] < h.ledger.highWater
              && (forall n :: n in h.numbers ==> n < sample.sequence)
  {
    RunIsSound(administrators, rules, ops);
    var h := Run(administrators, rules, ops);
    var sample := h.samples[k];
    if TimeOfSample(sample) != [] {
      if h.ledger.lastClockSample < sample.sequence {
        forall n | n in h.numbers
          ensures n < sample.sequence
        {
          GreatestIsUpperBound(h.numbers, n);
        }
      } else {
        GreatestIsReached(h.numbers);
        assert h.ledger.lastClockSample in h.numbers;
      }
    }
    AdmitNeverRegresses(ObserveIssuance(h.ledger, sample).0, rules, v);
  }

  lemma AdmitNeverRegresses(s: State, rules: Rules, v: Verified)
    ensures forall now :: Admit(s, rules, v, now) != Failure(ClockRegressed)
  {
  }

  function ProofOf(s: State, id: ID): ID
    requires id in s.grants
  {
    s.grants[id].grant.proofID
  }

  /** Tombstones and grants are in bijection, at most a thousand of each. */
  lemma TombstonesMatchGrants(administrators: map<ID, Administrator>, rules: Rules, ops: seq<Op>)
    ensures var s := Run(administrators, rules, ops).ledger;
            && s.proofs == (set id | id in s.grants :: ProofOf(s, id))
            && (forall left, right | left in s.grants && right in s.grants ::
                  ProofOf(s, left) == ProofOf(s, right) ==> left == right)
            && |s.grants| <= MAX_TRACKED_ELEVATIONS
  {
    RunIsSound(administrators, rules, ops);
    var s := Run(administrators, rules, ops).ledger;
    assert |s.grants| == |s.grants.Keys|;
    ImageHasSameSize(s, s.grants.Keys);
    var image := set id | id in s.grants.Keys :: ProofOf(s, id);
    forall id | id in s.grants
      ensures ProofOf(s, id) in s.proofs
    {
      assert RecordOk(s, rules, id);
    }
    SubsetOfSameSize(image, s.proofs);
    assert image == set id | id in s.grants :: ProofOf(s, id);
  }

  lemma {:induction false} ImageHasSameSize(s: State, ids: set<ID>)
    requires ids <= s.grants.Keys
    requires forall left, right | left in s.grants && right in s.grants ::
               ProofOf(s, left) == ProofOf(s, right) ==> left == right
    ensures |set id | id in ids :: ProofOf(s, id)| == |ids|
    decreases |ids|
  {
    if ids != {} {
      var id :| id in ids;
      ImageHasSameSize(s, ids - {id});
      assert (set i | i in ids :: ProofOf(s, i)) == (set i | i in ids - {id} :: ProofOf(s, i)) + {ProofOf(s, id)};
    }
  }

  lemma SubsetOfSameSize(small: set<ID>, large: set<ID>)
    requires small <= large && |small| == |large|
    ensures small == large
  {
    assert |large - small| == |large| - |small|;
  }

  /** An issue moves both indexes together: a success adds one new entry to each, a failure none. */
  lemma IssueMovesBothIndexes(administrators: map<ID, Administrator>, rules: Rules, ops: seq<Op>,
                              k: nat, v: Verified, cancelled: bool, cancelledLate: bool)
    requires CanIssue(Run(administrators, rules, ops), rules, k, v)
    ensures var s := Run(administrators, rules, ops).ledger; var sample := Run(administrators, rules, ops).samples[k];
            var (s', issued) := Issue(s, rules, v, sample, cancelled, cancelledLate);
            && (issued.Success? ==>
                  && v.proofID !in s.proofs && s'.proofs == s.proofs + {v.proofID}
                  && issued.value.id !in s.grants
                  && s'.grants == s.grants[issued.value.id := Record(issued.value, Active, ZERO_TIME)])
            && (issued.Failure? ==> s'.proofs == s.proofs && s'.grants == s.grants)
  {
    hide Run, Inv, Sound, Issue, Evolves;
    RunIsSound(administrators, rules, ops);
    var h := Run(administrators, rules, ops);
    InvIsSound(h, rules);
    IssueEffect(h.ledger, rules, v, h.samples[k], cancelled, cancelledLate);
  }

  /** A proof that was spent on a grant is refused after any continuation of the run. */
  lemma ProofIsSpentForever(administrators: map<ID, Administrator>, rules: Rules, ops: seq<Op>, more: seq<Op>,
                            first: Op, again: Op)
    requires first.IssueWith? && CanIssue(Run(administrators, rules, ops), rules, first.sample, first.v)
    requires var h := Run(administrators, rules, ops);
             Issue(h.ledger, rules, first.v, h.samples[first.sample], first.cancelled, first.cancelledLate).1.Success?
    requires again.IssueWith? && again.v.proofID == first.v.proofID
    requires var h := RunFrom(Apply(Run(administrators, rules, ops), rules, first), rules, more);
             CanIssue(h, rules, again.sample, again.v)
    ensures var h := RunFrom(Apply(Run(administrators, rules, ops), rules, first), rules, more);
            Issue(h.ledger, rules, again.v, h.samples[again.sample], again.cancelled, again.cancelledLate).1.Failure?
  {
    hide Run, RunFrom, Inv, Issue, Sound;
    RunIsSound(administrators, rules, ops);
    var h := Run(administrators, rules, ops);
    IssueMovesBothIndexes(administrators, rules, ops, first.sample, first.v, first.cancelled, first.cancelledLate);
    ApplyKeeps(h, rules, first);
    var h1 := Apply(h, rules, first);
    RunKeeps(h1, rules, more);
    RunEvolves(h1, rules, more);
    var h2 := RunFrom(h1, rules, more);
    InvIsSound(h2, rules);
    IssueEffect(h2.ledger, rules, again.v, h2.samples[again.sample], again.cancelled, again.cancelledLate);
  }

  /** Over a whole run a grant yields at most one receipt, of either kind. */
  lemma OneReceiptPerGrant(administrators: map<ID, Administrator>, rules: Rules, ops: seq<Op>, i: nat, j: nat)
    requires i < |Run(administrators, rules, ops).receipts| && j < |Run(administrators, rules, ops).receipts|
    requires var h := Run(administrators, rules, ops); h.receipts[i].Of().id == h.receipts[j].Of().id
    ensures i == j
  {
    RunIsSound(administrators, rules, ops);
  }

  /** Once terminal, a record is the same after any continuation of the run. */
  lemma TerminalForever(administrators: map<ID, Administrator>, rules: Rules, ops: seq<Op>, more: seq<Op>, id: ID)
    requires var s := Run(administrators, rules, ops).ledger; id in s.grants && !s.grants[id].state.Active?
    ensures var h := Run(administrators, rules, ops); var s' := RunFrom(h, rules, more).ledger;
            id in s'.grants && s'.grants[id] == h.ledger.grants[id]
  {
    RunIsSound(administrators, rules, ops);
    RunEvolves(Run(administrators, rules, ops), rules, more);
  }

  /** In every reachable state the receipt checks of Consume and Revoke are dead code. */
  lemma ReceiptChecksNeverFire(administrators: map<ID, Administrator>, rules: Rules, ops: seq<Op>,
                               now: Time, grant: Grant, action: Action, target: Target)
    ensures var s := Run(administrators, rules, ops).ledger;
            && (Consume(s, rules, now, grant, action, target).1 == Failure(GrantMismatch) <==>
                Foreign(s, rules, now, grant))
            && (Revoke(s, rules, now, grant).1 == Failure(GrantMismatch) <==> Foreign(s, rules, now, grant))
  {
    RunIsSound(administrators, rules, ops);
    var s := Run(administrators, rules, ops).ledger;
    ConsumeMismatchMeansForeign(s, rules, now, grant, action, target);
    RevokeMismatchMeansForeign(s, rules, now, grant);
  }
}
