/** What the ledger answers, read from the history of a run alone: the directory it was opened with, the grants and
    receipts handed out and the times processed. The records of the ledger are not looked at. */
module LedgerMeaning {
  import opened Wrappers
  import opened Ledger
  import opened LedgerRuns

  // ----- what the records say about the history

  /** The records are those of the grants handed out, and an expired one has seen its time pass. */
  ghost predicate Filed(h: History, administrators: map<ID, Administrator>) {
    && h.ledger.administrators == administrators
    && |h.issued| == |h.ledger.grants|
    && (forall i :: 0 <= i < |h.issued| ==>
          h.issued[i].id in h.ledger.grants && h.ledger.grants[h.issued[i].id].grant == h.issued[i])
    && (forall id :: id in h.ledger.grants ==> h.ledger.grants[id].grant in h.issued)
    && (forall id :: id in h.ledger.grants && h.ledger.grants[id].state.Expired? ==>
          h.ledger.grants[id].grant.expiresAt <= h.ledger.highWater)
  }

  /** No grant appears or changes, and a record that expires does so at its time. */
  ghost predicate Stays(s: State, s': State) {
    && s'.administrators == s.administrators && s.highWater <= s'.highWater && s'.grants.Keys == s.grants.Keys
    && (forall id :: id in s.grants ==>
          && s'.grants[id].grant == s.grants[id].grant
          && (s'.grants[id].state.Expired? && !s.grants[id].state.Expired? ==>
                s.grants[id].grant.expiresAt <= s'.highWater))
  }

  lemma StayingFiled(h: History, h': History, administrators: map<ID, Administrator>)
    requires Filed(h, administrators) && h'.issued == h.issued && Stays(h.ledger, h'.ledger)
    ensures Filed(h', administrators)
  {
    assert |h'.ledger.grants| == |h'.ledger.grants.Keys| && |h.ledger.grants| == |h.ledger.grants.Keys|;
  }

  lemma SettleStays(s: State, rules: Rules, now: Time, grant: Grant)
    requires forall id :: id in s.grants ==> s.grants[id].grant.id == id
    ensures Stays(s, Settle(s, rules, now, grant).0)
  {
    hide ValidGrant, Normalize;
  }

  lemma StaysOn(s: State, s1: State, s': State)
    requires Stays(s, s1) && Stays(s1, s')
    ensures Stays(s, s')
  {
  }

  lemma SpendStays(s: State, rules: Rules, id: ID, now: Time, action: Action, target: Target)
    requires id in s.grants && s.grants[id].grant.id == id
    ensures Stays(s, Spend(s, rules, id, now, action, target).0)
  {
    hide ValidConsumptionReceipt, ValidTarget;
  }

  lemma WithdrawStays(s: State, rules: Rules, id: ID, now: Time)
    requires id in s.grants && s.grants[id].grant.id == id
    ensures Stays(s, Withdraw(s, rules, id, now).0)
  {
    hide ValidRevocationReceipt;
  }

  lemma CallsStay(s: State, rules: Rules, now: Time, grant: Grant, action: Action, target: Target)
    requires forall id :: id in s.grants ==> s.grants[id].grant.id == id
    ensures Stays(s, StateAt(s, rules, now, grant).0) && Stays(s, Consume(s, rules, now, grant, action, target).0)
    ensures Stays(s, Revoke(s, rules, now, grant).0)
  {
    SettleStays(s, rules, now, grant);
    var (s1, settled) := Settle(s, rules, now, grant);
    hide Settle, Spend, Withdraw;
    if settled.Success? && grant.id in s1.grants {
      SpendStays(s1, rules, grant.id, settled.value, action, target);
      WithdrawStays(s1, rules, grant.id, settled.value);
      StaysOn(s, s1, Spend(s1, rules, grant.id, settled.value, action, target).0);
      StaysOn(s, s1, Withdraw(s1, rules, grant.id, settled.value).0);
    }
  }

  lemma IssuedIsFiled(h: History, h': History, rules: Rules, v: Verified, issued: Result<Grant>,
                      administrators: map<ID, Administrator>)
    requires Filed(h, administrators) && Issued(h.ledger, h'.ledger, rules, v, issued)
    requires h'.issued == if issued.Success? then h.issued + [issued.value] else h.issued
    ensures Filed(h', administrators)
  {
    hide ValidGrant;
  }

  lemma RecordsAreNamed(h: History, rules: Rules)
    requires Inv(h, rules)
    ensures forall id :: id in h.ledger.grants ==> h.ledger.grants[id].grant.id == id
  {
    forall id | id in h.ledger.grants
      ensures h.ledger.grants[id].grant.id == id
    {
      assert RecordOk(h.ledger, rules, id);
    }
  }

  lemma IssueFiles(h: History, rules: Rules, k: nat, v: Verified, cancelled: bool, cancelledLate: bool,
                   administrators: map<ID, Administrator>)
    requires Sound(h.ledger, rules) && Filed(h, administrators) && CanIssue(h, rules, k, v)
    ensures Filed(Apply(h, rules, IssueWith(k, v, cancelled, cancelledLate)), administrators)
  {
    hide Sound, Filed, Issue, Issued, Evolves;
    IssueEffect(h.ledger, rules, v, h.samples[k], cancelled, cancelledLate);
    IssuedIsFiled(h, Apply(h, rules, IssueWith(k, v, cancelled, cancelledLate)), rules, v,
                  Issue(h.ledger, rules, v, h.samples[k], cancelled, cancelledLate).1, administrators);
  }

  lemma CallFiles(h: History, rules: Rules, op: Op, administrators: map<ID, Administrator>)
    requires op.AskState? || op.ConsumeGrant? || op.RevokeGrant?
    requires Filed(h, administrators) && forall id :: id in h.ledger.grants ==> h.ledger.grants[id].grant.id == id
    ensures Filed(Apply(h, rules, op), administrators)
  {
    hide Filed, StateAt, Consume, Revoke, Stays, TimeOfCall;
    if op.ConsumeGrant? {
      CallsStay(h.ledger, rules, op.now, op.grant, op.action, op.target);
    } else {
      CallsStay(h.ledger, rules, op.now, op.grant, op.grant.action, op.grant.target);
    }
    StayingFiled(h, Apply(h, rules, op), administrators);
  }

  lemma ApplyFiles(h: History, rules: Rules, op: Op, administrators: map<ID, Administrator>)
    requires Inv(h, rules) && Filed(h, administrators)
    ensures Filed(Apply(h, rules, op), administrators)
  {
    RecordsAreNamed(h, rules);
    InvIsSound(h, rules);
    hide Inv, Sound, Filed, Issue, StateAt, Consume, Revoke, TimeOfCall, TimeOfSample;
    if op.TakeSample? {
      SampleFiles(h, rules, op.now, administrators);
    } else if op.IssueWith? {
      if CanIssue(h, rules, op.sample, op.v) {
        IssueFiles(h, rules, op.sample, op.v, op.cancelled, op.cancelledLate, administrators);
      }
    } else {
      CallFiles(h, rules, op, administrators);
    }
  }

  lemma SampleFiles(h: History, rules: Rules, now: Time, administrators: map<ID, Administrator>)
    requires Filed(h, administrators)
    ensures Filed(Apply(h, rules, TakeSample(now)), administrators)
  {
  }

  /** In every run the records are those of the grants handed out. */
  lemma {:induction false} RunFiles(administrators: map<ID, Administrator>, rules: Rules, ops: seq<Op>)
    ensures Inv(Run(administrators, rules, ops), rules) && Filed(Run(administrators, rules, ops), administrators)
  {
    RunIsSound(administrators, rules, ops);
    if ops != [] {
      hide Inv, Apply;
      RunFiles(administrators, rules, ops[..|ops| - 1]);
      ApplyFiles(Run(administrators, rules, ops[..|ops| - 1]), rules, ops[|ops| - 1], administrators);
    }
  }

  // ----- the state of a grant

  ghost predicate WasConsumed(h: History, grant: Grant) {
    exists i :: 0 <= i < |h.receipts| && h.receipts[i].Consumption? && h.receipts[i].Of() == grant
  }

  ghost predicate WasRevoked(h: History, grant: Grant) {
    exists i :: 0 <= i < |h.receipts| && h.receipts[i].Revocation? && h.receipts[i].Of() == grant
  }

  /** The state of a grant handed out, at a time not before any processed one. */
  ghost function StateIn(h: History, grant: Grant, t: Time): GrantState {
    if WasConsumed(h, grant) then Consumed
    else if WasRevoked(h, grant) then Revoked
    else if t < grant.expiresAt then Active
    else Expired
  }

  lemma ReceiptsShow(h: History, rules: Rules, administrators: map<ID, Administrator>, grant: Grant)
    requires Receipted(h, rules) && Filed(h, administrators) && grant in h.issued
    ensures grant.id in h.ledger.grants && h.ledger.grants[grant.id].grant == grant
    ensures h.ledger.grants[grant.id].state.Consumed? <==> WasConsumed(h, grant)
    ensures h.ledger.grants[grant.id].state.Revoked? <==> WasRevoked(h, grant)
  {
    hide ValidGrant;
    var record := h.ledger.grants[grant.id];
    forall i | 0 <= i < |h.receipts| && h.receipts[i].Of() == grant
      ensures record.state == if h.receipts[i].Consumption? then Consumed else Revoked
    {
      assert ReceiptOk(h.ledger, rules, h.receipts[i]);
    }
    if record.state in {Consumed, Revoked} {
      var i :| 0 <= i < |h.receipts| && h.receipts[i].Of().id == grant.id;
      assert ReceiptOk(h.ledger, rules, h.receipts[i]);
    }
  }

  /** What a settled record says is what the history says. */
  lemma RecordShows(h: History, rules: Rules, administrators: map<ID, Administrator>, grant: Grant, t: Time)
    requires Receipted(h, rules) && Filed(h, administrators) && grant in h.issued && h.ledger.highWater <= t
    ensures grant.id in h.ledger.grants && h.ledger.grants[grant.id].grant == grant
    ensures ExpireAt(h.ledger.grants[grant.id], t).state == StateIn(h, grant, t)
  {
    ReceiptsShow(h, rules, administrators, grant);
    hide Receipted, WasConsumed, WasRevoked;
    assert h.ledger.grants[grant.id].state.Expired? ==> grant.expiresAt <= h.ledger.highWater;
  }

  /** The time of a call lies before one that was processed. */
  ghost predicate Regressed(h: History, t: Time) {
    exists earlier :: earlier in h.times && t < earlier
  }

  ghost predicate NeverIssued(h: History, id: ID) {
    forall i :: 0 <= i < |h.issued| ==> h.issued[i].id != id
  }

  /** The answer to a question about a grant at a time, from the history. */
  ghost function Answer(h: History, rules: Rules, now: Time, grant: Grant): Result<GrantState> {
    if !ValidGrant(rules, grant) then Failure(GrantMismatch)
    else
      match Normalize(now)
      case None => Failure(InvalidClock)
      case Some(t) =>
        if Regressed(h, t) then Failure(ClockRegressed)
        else if NeverIssued(h, grant.id) then Failure(GrantNotFound)
        else if grant !in h.issued then Failure(GrantMismatch)
        else Success(StateIn(h, grant, t))
  }

  lemma RegressedMeansBehindTheMark(h: History, t: Time)
    requires Clocked(h) && 0 <= t
    ensures Regressed(h, t) <==> t < h.ledger.highWater
  {
    if t < h.ledger.highWater {
      GreatestIsReached(h.times);
      assert h.ledger.highWater in h.times;
    }
    if earlier :| earlier in h.times && t < earlier {
      GreatestIsUpperBound(h.times, earlier);
    }
  }

  lemma IssuedExactly(h: History, rules: Rules, administrators: map<ID, Administrator>, grant: Grant)
    requires Inv(h, rules) && Filed(h, administrators)
    ensures NeverIssued(h, grant.id) <==> grant.id !in h.ledger.grants
    ensures grant in h.issued <==> grant.id in h.ledger.grants && h.ledger.grants[grant.id].grant == grant
    ensures grant.id in h.ledger.grants ==> ValidGrant(rules, h.ledger.grants[grant.id].grant)
  {
    hide ValidGrant;
    RecordsAreNamed(h, rules);
    if grant.id in h.ledger.grants {
      assert RecordOk(h.ledger, rules, grant.id);
      var i :| 0 <= i < |h.issued| && h.issued[i] == h.ledger.grants[grant.id].grant;
      assert h.issued[i].id == grant.id;
    }
  }

  /** Settling gives the answer of the history, and leaves the record in the state that the answer names. */
  lemma SettleAnswers(h: History, rules: Rules, administrators: map<ID, Administrator>, now: Time, grant: Grant)
    requires Inv(h, rules) && Filed(h, administrators)
    ensures var (s', settled) := Settle(h.ledger, rules, now, grant); var answer := Answer(h, rules, now, grant);
            && (settled.Success? <==> answer.Success?)
            && (settled.Failure? ==> settled.error == answer.error)
            && (settled.Success? ==>
                  && Normalize(now) == Some(settled.value) && grant.id in s'.grants
                  && s'.grants[grant.id].grant == grant && s'.grants[grant.id].state == answer.value)
  {
    IssuedExactly(h, rules, administrators, grant);
    NormalizedIsCanonical(now);
    if Normalize(now).Some? {
      var t := Normalize(now).value;
      RegressedMeansBehindTheMark(h, t);
      hide Normalize, ValidGrant, Inv, Regressed, NeverIssued;
      if h.ledger.highWater <= t && grant in h.issued {
        InvHasReceipts(h, rules);
        RecordShows(h, rules, administrators, grant, t);
      }
      hide Filed, StateIn;
    }
  }

  lemma InvHasReceipts(h: History, rules: Rules)
    requires Inv(h, rules)
    ensures Receipted(h, rules)
  {
  }

  /** StateAt answers what the history says: consumed or revoked exactly with such a receipt, else active exactly
      before the expiry, and each refusal for its reason. */
  lemma StateAtExactly(administrators: map<ID, Administrator>, rules: Rules, ops: seq<Op>, now: Time, grant: Grant)
    ensures var h := Run(administrators, rules, ops);
            StateAt(h.ledger, rules, now, grant).1 == Answer(h, rules, now, grant)
  {
    hide Run, Inv, Filed, Settle, Answer;
    RunFiles(administrators, rules, ops);
    var h := Run(administrators, rules, ops);
    SettleAnswers(h, rules, administrators, now, grant);
    var answer := Answer(h, rules, now, grant);
    var (s', settled) := Settle(h.ledger, rules, now, grant);
    if settled.Success? {
      assert StateAt(h.ledger, rules, now, grant).1 == Success(answer.value) == answer;
    } else {
      assert StateAt(h.ledger, rules, now, grant).1 == Failure(answer.error) == answer;
    }
  }

  /** What Consume and Revoke report of a grant that is no longer active. */
  function Ended(state: GrantState): Error
    requires !state.Active?
  {
    if state.Consumed? then GrantConsumed else if state.Revoked? then GrantRevoked else GrantExpired
  }

  /** Consume succeeds exactly when StateAt would say Active and the action and target are those of the grant; the
      receipt names the grant and the time. */
  lemma ConsumeExactly(administrators: map<ID, Administrator>, rules: Rules, ops: seq<Op>, now: Time, grant: Grant,
                       action: Action, target: Target)
    ensures var h := Run(administrators, rules, ops);
            var answer, receipt := Answer(h, rules, now, grant), Consume(h.ledger, rules, now, grant, action, target).1;
            && (receipt.Success? <==>
                  answer == Success(Active) && grant.action == action && grant.target == target)
            && (receipt.Success? ==>
                  Normalize(now).Some? && receipt.value == ConsumptionReceipt(grant, Normalize(now).value))
            && (receipt.Failure? ==>
                  receipt.error == if answer.Failure? then answer.error
                                   else if answer.value.Active? then GrantScopeMismatch
                                   else Ended(answer.value))
  {
    hide Run, Inv, Filed, Answer, Normalize, ValidGrant, Sound;
    RunFiles(administrators, rules, ops);
    var h := Run(administrators, rules, ops);
    SettleAnswers(h, rules, administrators, now, grant);
    var (s', settled) := Settle(h.ledger, rules, now, grant);
    if settled.Success? {
      SettledReceipts(h, rules, now, grant);
      hide Settle;
      SpendExactly(s', rules, grant, settled.value, action, target);
    }
  }

  lemma SettledReceipts(h: History, rules: Rules, now: Time, grant: Grant)
    requires Inv(h, rules) && Settle(h.ledger, rules, now, grant).1.Success?
    ensures var (s', settled) := Settle(h.ledger, rules, now, grant);
            && grant.id in s'.grants && ValidTarget(rules, grant.target)
            && (s'.grants[grant.id].state.Active? ==>
                  && ValidConsumptionReceipt(rules, ConsumptionReceipt(grant, settled.value))
                  && ValidRevocationReceipt(rules, RevocationReceipt(grant, settled.value)))
  {
    InvIsSound(h, rules);
    var (s', settled) := Settle(h.ledger, rules, now, grant);
    hide Inv, Settle, Sound, Normalize, ValidConsumptionReceipt, ValidRevocationReceipt, Evolves;
    SettleEffect(h.ledger, rules, now, grant);
    if s'.grants[grant.id].state.Active? { ReceiptsAreValid(h.ledger, s', rules, now, grant, settled); }
  }

  lemma SpendExactly(s: State, rules: Rules, grant: Grant, t: Time, action: Action, target: Target)
    requires grant.id in s.grants && s.grants[grant.id].grant == grant && ValidTarget(rules, grant.target)
    requires s.grants[grant.id].state.Active? ==> ValidConsumptionReceipt(rules, ConsumptionReceipt(grant, t))
    ensures var receipt, state := Spend(s, rules, grant.id, t, action, target).1, s.grants[grant.id].state;
            && (receipt.Success? <==> state.Active? && grant.action == action && grant.target == target)
            && (receipt.Success? ==> receipt.value == ConsumptionReceipt(grant, t))
            && (receipt.Failure? ==> receipt.error == if state.Active? then GrantScopeMismatch else Ended(state))
  {
    hide ValidTarget, ValidConsumptionReceipt;
  }

  /** Revoke succeeds exactly when StateAt would say Active. */
  lemma RevokeExactly(administrators: map<ID, Administrator>, rules: Rules, ops: seq<Op>, now: Time, grant: Grant)
    ensures var h := Run(administrators, rules, ops);
            var answer, receipt := Answer(h, rules, now, grant), Revoke(h.ledger, rules, now, grant).1;
            && (receipt.Success? <==> answer == Success(Active))
            && (receipt.Success? ==>
                  Normalize(now).Some? && receipt.value == RevocationReceipt(grant, Normalize(now).value))
            && (receipt.Failure? ==>
                  receipt.error == if answer.Failure? then answer.error else Ended(answer.value))
  {
    hide Run, Inv, Filed, Answer, Normalize, ValidGrant, Sound;
    RunFiles(administrators, rules, ops);
    var h := Run(administrators, rules, ops);
    SettleAnswers(h, rules, administrators, now, grant);
    var (s', settled) := Settle(h.ledger, rules, now, grant);
    if settled.Success? {
      SettledReceipts(h, rules, now, grant);
      hide Settle;
      WithdrawExactly(s', rules, grant, settled.value);
    }
  }

  lemma WithdrawExactly(s: State, rules: Rules, grant: Grant, t: Time)
    requires grant.id in s.grants && s.grants[grant.id].grant == grant
    requires s.grants[grant.id].state.Active? ==> ValidRevocationReceipt(rules, RevocationReceipt(grant, t))
    ensures var receipt, state := Withdraw(s, rules, grant.id, t).1, s.grants[grant.id].state;
            && (receipt.Success? <==> state.Active?)
            && (receipt.Success? ==> receipt.value == RevocationReceipt(grant, t))
            && (receipt.Failure? ==> receipt.error == Ended(state))
  {
    hide ValidRevocationReceipt;
  }

  /** Times are cut to the millisecond before them, from the year 1 to the year 9999. */
  lemma NormalizeExactly(t: Time, x: Time)
    ensures Normalize(t) == Some(x) <==>
            t != ZERO_TIME && 0 <= x < END_OF_TIME && x % MILLISECOND == 0 && x <= t < x + MILLISECOND
  {
  }

  // ----- what an issue rests on

  predicate Whole(t: Time) {
    0 <= t && t % MILLISECOND == 0
  }

  /** The time that an issue with this sample is stamped with, if its clock is accepted. */
  ghost function IssueTime(h: History, k: nat): Time
    requires k < |h.samples|
  {
    Greatest(h.times + TimeOfSample(h.samples[k]))
  }

  /** The sample is the newest of all processed ones and lies behind a processed time. */
  ghost predicate Newest(h: History, k: nat)
    requires k < |h.samples|
  {
    forall n :: n in h.numbers ==> n < h.samples[k].sequence
  }

  ghost predicate ProofSpent(h: History, proofID: ID) {
    exists i :: 0 <= i < |h.issued| && h.issued[i].proofID == proofID
  }

  /** The grant that a verified request asks for, stamped with a time. */
  function Requested(v: Verified, t: Time): Grant {
    var r := v.request;
    Grant(r.grantID, r.administrator.id, v.proofID, r.action, r.target, r.reason, r.caseReference, t, t + r.duration)
  }

  /** The proof is recent: taken after neither the request nor the issue, and at most five minutes before the issue. */
  predicate Timely(v: Verified, t: Time) {
    v.request.requestedAt <= t && v.authenticatedAt <= t <= v.authenticatedAt + MAX_PROOF_AGE
  }

  predicate Registered(administrators: map<ID, Administrator>, v: Verified) {
    var a := v.request.administrator; a.id in administrators && administrators[a.id] == a
  }

  /** Everything an issue rests on but the context and the clock. */
  ghost predicate Admissible(h: History, administrators: map<ID, Administrator>, v: Verified, t: Time) {
    && Timely(v, t) && Registered(administrators, v)
    && !ProofSpent(h, v.proofID) && NeverIssued(h, v.request.grantID) && |h.issued| < MAX_TRACKED_ELEVATIONS
    && 0 < t && t + v.request.duration < END_OF_TIME
  }

  /** The first thing that speaks against the admission of a request at a time. */
  ghost function Against(h: History, administrators: map<ID, Administrator>, v: Verified, t: Time): Option<Error> {
    if !Timely(v, t) then Some(AuthenticationInvalid)
    else if v.request.administrator.id !in administrators then Some(AdministratorNotRegistered)
    else if !Registered(administrators, v) then Some(IdentityMismatch)
    else if ProofSpent(h, v.proofID) then Some(ProofReplayed)
    else if !NeverIssued(h, v.request.grantID) then Some(DuplicateGrantID)
    else if |h.issued| >= MAX_TRACKED_ELEVATIONS then Some(LedgerFull)
    else if t + v.request.duration >= END_OF_TIME then Some(InvalidDuration)
    else if t == 0 then Some(InvalidRequest)
    else None
  }

  lemma SpentExactly(h: History, rules: Rules, administrators: map<ID, Administrator>, proofID: ID)
    requires Inv(h, rules) && Filed(h, administrators)
    requires h.ledger.proofs == (set id | id in h.ledger.grants :: ProofOf(h.ledger, id))
    ensures ProofSpent(h, proofID) <==> proofID in h.ledger.proofs
  {
    hide Inv;
    if proofID in h.ledger.proofs {
      var id :| id in h.ledger.grants && ProofOf(h.ledger, id) == proofID;
      var i :| 0 <= i < |h.issued| && h.issued[i] == h.ledger.grants[id].grant;
      assert h.issued[i].proofID == proofID;
    }
    if i :| 0 <= i < |h.issued| && h.issued[i].proofID == proofID {
      assert ProofOf(h.ledger, h.issued[i].id) == proofID;
    }
  }

  /** A grant for a valid request at a positive millisecond is valid when it ends in time. */
  lemma RequestedIsValid(rules: Rules, v: Verified, t: Time)
    requires IsVerified(rules, v) && Whole(t)
    ensures t + v.request.duration < END_OF_TIME <==> Normalize(t + v.request.duration) == Some(t + v.request.duration)
    ensures t + v.request.duration >= END_OF_TIME <==> Normalize(t + v.request.duration) == None
    ensures t + v.request.duration < END_OF_TIME ==> (ValidGrant(rules, Requested(v, t)) <==> t > 0)
  {
    hide ValidActionTarget;
  }

  /** Admission, once the clock is settled, goes by the history. */
  lemma AdmitExactly(h: History, rules: Rules, administrators: map<ID, Administrator>, s: State, v: Verified, t: Time)
    requires IsVerified(rules, v) && Whole(t)
    requires s.administrators == administrators && s.proofs == h.ledger.proofs && s.grants == h.ledger.grants
    requires |h.issued| == |s.grants| && (ProofSpent(h, v.proofID) <==> v.proofID in s.proofs)
    requires NeverIssued(h, v.request.grantID) <==> v.request.grantID !in s.grants
    ensures var against := Against(h, administrators, v, t);
            Admit(s, rules, v, t) == if against.Some? then Failure(against.value) else Success(Requested(v, t))
  {
    RequestedIsValid(rules, v, t);
    assert MatchesPrincipal(rules, v.request.administrator, v.request.principal);
    hide ValidGrant, Normalize, MatchesPrincipal, IsVerified, ProofSpent, NeverIssued;
  }

  lemma AgainstExactly(h: History, administrators: map<ID, Administrator>, v: Verified, t: Time)
    requires 0 <= t
    ensures Against(h, administrators, v, t).None? <==> Admissible(h, administrators, v, t)
  {
  }

  lemma {:induction false} GreatestIsWhole(xs: seq<Time>)
    requires forall i :: 0 <= i < |xs| ==> Whole(xs[i])
    ensures Whole(Greatest(xs))
  {
    if xs != [] {
      GreatestIsWhole(xs[..|xs| - 1]);
    }
  }

  lemma NewTimesAreWhole(h: History, rules: Rules, op: Op)
    requires forall i :: 0 <= i < |h.times| ==> Whole(h.times[i])
    ensures var times := Apply(h, rules, op).times; forall i :: 0 <= i < |times| ==> Whole(times[i])
  {
    hide ValidGrant, Issue, StateAt, Consume, Revoke, IsVerified;
  }

  /** Every time processed is a whole millisecond. */
  lemma {:induction false} TimesAreWhole(administrators: map<ID, Administrator>, rules: Rules, ops: seq<Op>)
    ensures var times := Run(administrators, rules, ops).times; forall i :: 0 <= i < |times| ==> Whole(times[i])
  {
    if ops != [] {
      TimesAreWhole(administrators, rules, ops[..|ops| - 1]);
      NewTimesAreWhole(Run(administrators, rules, ops[..|ops| - 1]), rules, ops[|ops| - 1]);
    }
  }

  /** What the clock says to an issue: no time, a time behind the mark, or the time to stamp the grant with. */
  lemma ClockExactly(administrators: map<ID, Administrator>, rules: Rules, ops: seq<Op>, k: nat, v: Verified)
    requires CanIssue(Run(administrators, rules, ops), rules, k, v)
    ensures var h := Run(administrators, rules, ops); var sample := h.samples[k];
            var (s', observed) := ObserveIssuance(h.ledger, sample);
            && s'.administrators == h.ledger.administrators && s'.proofs == h.ledger.proofs
            && s'.grants == h.ledger.grants
            && (TimeOfSample(sample) == [] ==> observed == Failure(AuthenticationUnavailable))
            && (TimeOfSample(sample) != [] ==>
                  observed == if Newest(h, k) && Regressed(h, TimeOfSample(sample)[0]) then Failure(ClockRegressed)
                              else Success(IssueTime(h, k)))
  {
    RunIsSound(administrators, rules, ops);
    var h := Run(administrators, rules, ops);
    hide Run, Sound, Receipted;
    var sample := h.samples[k];
    if TimeOfSample(sample) != [] {
      var t := TimeOfSample(sample)[0];
      NormalizedIsCanonical(sample.observed);
      hide Normalize;
      RegressedMeansBehindTheMark(h, t);
      GreatestAppends(h.times, t);
      NewestExactly(h, k);
    }
  }

  lemma NewestExactly(h: History, k: nat)
    requires Clocked(h) && Numbered(h) && k < |h.samples| && k !in h.used && h.samples[k].sequence != 0
    ensures Newest(h, k) <==> h.ledger.lastClockSample < h.samples[k].sequence
  {
    var sequence := h.samples[k].sequence;
    if h.ledger.lastClockSample < sequence {
      forall n | n in h.numbers
        ensures n < sequence
      {
        GreatestIsUpperBound(h.numbers, n);
      }
    } else {
      GreatestIsReached(h.numbers);
      assert h.ledger.lastClockSample in h.numbers;
    }
  }

  /** Nothing was cancelled and the clock gave a time that is not behind the mark. */
  ghost predicate Clear(h: History, k: nat, cancelled: bool, cancelledLate: bool)
    requires k < |h.samples|
  {
    && !cancelled && !cancelledLate && TimeOfSample(h.samples[k]) != []
    && !(Newest(h, k) && Regressed(h, TimeOfSample(h.samples[k])[0]))
  }

  /** What an issue answers, from the history: the requested grant at the greatest time processed, or the first thing
      against it. */
  lemma IssueExactly(administrators: map<ID, Administrator>, rules: Rules, ops: seq<Op>,
                     k: nat, v: Verified, cancelled: bool, cancelledLate: bool)
    requires CanIssue(Run(administrators, rules, ops), rules, k, v)
    ensures var h := Run(administrators, rules, ops);
            var time, t := TimeOfSample(h.samples[k]), IssueTime(h, k);
            var against := Against(h, administrators, v, t);
            Issue(h.ledger, rules, v, h.samples[k], cancelled, cancelledLate).1 ==
            if cancelled then Failure(ContextDone)
            else if time == [] then Failure(AuthenticationUnavailable)
            else if Newest(h, k) && Regressed(h, time[0]) then Failure(ClockRegressed)
            else if against.Some? then Failure(against.value)
            else if cancelledLate then Failure(ContextDone)
            else Success(Requested(v, t))
  {
    hide Run;
    var h := Run(administrators, rules, ops);
    ClockExactly(administrators, rules, ops, k, v);
    hide ObserveIssuance, Inv, Filed, Against, Admit, Newest, Regressed;
    var (s', observed) := ObserveIssuance(h.ledger, h.samples[k]);
    if observed.Success? {
      AdmitFromHistory(administrators, rules, ops, k, v, s');
    }
  }

  lemma AdmitFromHistory(administrators: map<ID, Administrator>, rules: Rules, ops: seq<Op>, k: nat, v: Verified,
                         s: State)
    requires CanIssue(Run(administrators, rules, ops), rules, k, v)
    requires var s' := Run(administrators, rules, ops).ledger;
             s.administrators == s'.administrators && s.proofs == s'.proofs && s.grants == s'.grants
    ensures var h := Run(administrators, rules, ops); var against := Against(h, administrators, v, IssueTime(h, k));
            Admit(s, rules, v, IssueTime(h, k)) ==
            if against.Some? then Failure(against.value) else Success(Requested(v, IssueTime(h, k)))
  {
    hide Run, Inv, Against, Admit, IsVerified;
    RunFiles(administrators, rules, ops);
    TombstonesMatchGrants(administrators, rules, ops);
    TimesAreWhole(administrators, rules, ops);
    var h := Run(administrators, rules, ops);
    GreatestIsWhole(h.times + TimeOfSample(h.samples[k]));
    SpentExactly(h, rules, administrators, v.proofID);
    IssuedExactly(h, rules, administrators, Requested(v, IssueTime(h, k)));
    hide Filed, IssueTime, ProofSpent, NeverIssued;
    AdmitExactly(h, rules, administrators, s, v, IssueTime(h, k));
  }

  /** An issue succeeds exactly when nothing was cancelled, the clock is accepted and the request is admissible: its
      administrator is registered as it stands and is the very principal, its proof is recent and new, its ID is new and
      there is room. The grant is the requested one, from the greatest time processed on. */
  lemma IssueRestsOn(administrators: map<ID, Administrator>, rules: Rules, ops: seq<Op>,
                     k: nat, v: Verified, cancelled: bool, cancelledLate: bool)
    requires CanIssue(Run(administrators, rules, ops), rules, k, v)
    ensures var h := Run(administrators, rules, ops);
            var issued := Issue(h.ledger, rules, v, h.samples[k], cancelled, cancelledLate).1;
            && (issued.Success? <==>
                  Clear(h, k, cancelled, cancelledLate) && Admissible(h, administrators, v, IssueTime(h, k)))
            && (issued.Success? ==>
                  && issued.value == Requested(v, IssueTime(h, k))
                  && var a, p := administrators[issued.value.administratorID], v.request.principal;
                     p.human == a.human == true && p.issuer == a.issuer && p.subject == a.subject)
  {
    IssueExactly(administrators, rules, ops, k, v, cancelled, cancelledLate);
    TimesAreWhole(administrators, rules, ops);
    hide Run, Issue, Newest, Regressed;
    var h := Run(administrators, rules, ops);
    GreatestIsWhole(h.times + TimeOfSample(h.samples[k]));
    AgainstExactly(h, administrators, v, IssueTime(h, k));
    assert MatchesPrincipal(rules, v.request.administrator, v.request.principal);
    hide Against, ProofSpent, NeverIssued;
  }

  lemma {:induction false} IssuersAreRegistered(administrators: map<ID, Administrator>, rules: Rules, ops: seq<Op>)
    ensures var issued := Run(administrators, rules, ops).issued;
            forall i :: 0 <= i < |issued| ==>
              issued[i].administratorID in administrators && administrators[issued[i].administratorID].human
  {
    if ops != [] {
      var front, op := ops[..|ops| - 1], ops[|ops| - 1];
      IssuersAreRegistered(administrators, rules, front);
      var h := Run(administrators, rules, front);
      if op.IssueWith? && CanIssue(h, rules, op.sample, op.v) {
        IssueRestsOn(administrators, rules, front, op.sample, op.v, op.cancelled, op.cancelledLate);
      }
      hide Issue, StateAt, Consume, Revoke, CanIssue, Sample;
    }
  }

  /** Over every run each grant handed out names a registered person, lasts at most fifteen minutes and is either for
      exporting an audit or for an operation. */
  lemma EveryGrantIsBounded(administrators: map<ID, Administrator>, rules: Rules, ops: seq<Op>, g: Grant)
    requires g in Run(administrators, rules, ops).issued
    ensures g.administratorID in administrators && administrators[g.administratorID].human
    ensures g.issuedAt < g.expiresAt <= g.issuedAt + 15 * MINUTE
    ensures !g.action.OtherAction? && (g.action.AuditExport? <==> !g.target.kind.OperationTarget?)
    ensures g.target.kind.PlatformAudit? <==> g.target == Target(PlatformAudit, None, None, None, None, None)
    ensures g.target.kind.WorkspaceAudit? ==>
              var w := g.target.workspaceID; w.Some? && g.target == Target(WorkspaceAudit, w, w, w, None, None)
    ensures g.target.kind.OperationTarget? ==>
              && g.target.objectID.Some? && g.target.workspaceID.Some? && g.target.resourceID.Some?
              && (g.target.environmentID.Some? <==> g.target.providerConnectionID.Some?)
  {
    IssuersAreRegistered(administrators, rules, ops);
    RunFiles(administrators, rules, ops);
    var h := Run(administrators, rules, ops);
    hide Run;
    IssuedExactly(h, rules, administrators, g);
  }
}
