/** When the gates are closed, exactly, and what every lookup answers, read from the history of a run alone: the key
    sets installed, the flights logged and the causes of cooldowns. The cache is not looked at. */
module Gates {
  import opened Wrappers
  import opened KeyCache
  import opened Authenticate

  // ----- what closes a gate

  /** What closes the gate of a reason: a failed fetch that was joined for it, or a caller that came late to one; a
      proactive failure counts for required fetches too. A reactive attempt closes its gate whether it failed or not,
      and so do a key that is missing after a refresh and a signature that fails soon after an attempt. */
  predicate Concerns(cause: Cause, reason: Reason) {
    match cause
    case Ended(_, reasons, failed) =>
      (match reason
       case Required => failed && (reasons.required || reasons.proactive)
       case Proactive => failed && reasons.proactive
       case Reactive => reasons.reactive)
    case CameLate(_, late, failed) =>
      (match reason
       case Required => failed && !late.Reactive?
       case Proactive => failed && late.Proactive?
       case Reactive => late.Reactive?)
    case Missed(_) => reason.Reactive?
    case Rejected(_) => reason.Reactive?
  }

  /** A successful fetch reopens the gates of required and proactive fetches. */
  predicate Reopens(cause: Cause, reason: Reason) {
    cause.Ended? && !cause.failed && !reason.Reactive?
  }

  ghost predicate Stands(causes: seq<Cause>, i: int, reason: Reason) {
    0 <= i < |causes| && Concerns(causes[i], reason) && forall j :: i < j < |causes| ==> !Reopens(causes[j], reason)
  }

  /** Some cause holds fetches of this reason off at this time. */
  ghost predicate Held(s: System, config: Config, reason: Reason, t: Time) {
    exists i :: Stands(s.causes, i, reason) && t < s.causes[i].at + config.cooldown
  }

  /** The gate is the latest end of a cooldown that stands. */
  ghost predicate GateIs(gate: Time, causes: seq<Cause>, config: Config, reason: Reason) {
    && (forall i :: Stands(causes, i, reason) ==> causes[i].at + config.cooldown <= gate)
    && (gate != ZERO_TIME ==> exists i :: Stands(causes, i, reason) && causes[i].at + config.cooldown == gate)
  }

  function GateAfter(gate: Time, cause: Cause, config: Config, reason: Reason): Time {
    if Reopens(cause, reason) then ZERO_TIME
    else if Concerns(cause, reason) then Later(gate, cause.at + config.cooldown)
    else gate
  }

  lemma StandsLonger(causes: seq<Cause>, cause: Cause, i: int, reason: Reason)
    ensures i != |causes| ==>
              (Stands(causes + [cause], i, reason) <==> Stands(causes, i, reason) && !Reopens(cause, reason))
    ensures Stands(causes + [cause], |causes|, reason) <==> Concerns(cause, reason)
  {
    var longer := causes + [cause];
    if 0 <= i < |causes| && Stands(longer, i, reason) {
      assert !Reopens(longer[|causes|], reason);
      forall j | i < j < |causes|
        ensures !Reopens(causes[j], reason)
      {
        assert !Reopens(longer[j], reason);
      }
    }
  }

  lemma GateMoves(gate: Time, causes: seq<Cause>, cause: Cause, config: Config, reason: Reason)
    requires GateIs(gate, causes, config, reason) && cause.at + config.cooldown > ZERO_TIME
    requires Reopens(cause, reason) ==> !Concerns(cause, reason)
    ensures GateIs(GateAfter(gate, cause, config, reason), causes + [cause], config, reason)
  {
    hide Concerns, Reopens, Stands;
    var longer, gate' := causes + [cause], GateAfter(gate, cause, config, reason);
    forall i
      ensures i != |causes| ==>
                (Stands(longer, i, reason) <==> Stands(causes, i, reason) && !Reopens(cause, reason))
      ensures Stands(longer, |causes|, reason) <==> Concerns(cause, reason)
      ensures Stands(causes, i, reason) ==> 0 <= i < |causes|
    {
      StandsLonger(causes, cause, i, reason);
      StandsInside(causes, i, reason);
    }
    if gate' != ZERO_TIME {
      if gate' == gate {
        var i :| Stands(causes, i, reason) && causes[i].at + config.cooldown == gate;
        assert Stands(longer, i, reason) && longer[i].at + config.cooldown == gate';
      } else {
        assert Stands(longer, |causes|, reason) && longer[|causes|].at + config.cooldown == gate';
      }
    }
  }

  lemma StandsInside(causes: seq<Cause>, i: int, reason: Reason)
    ensures Stands(causes, i, reason) ==> 0 <= i < |causes|
  {
  }

  // ----- what the sections do to the gates

  ghost predicate GatesAre(c: Cache, causes: seq<Cause>, config: Config) {
    && GateIs(c.nextRequired, causes, config, Required)
    && GateIs(c.nextProactive, causes, config, Proactive)
    && GateIs(c.nextReactive, causes, config, Reactive)
  }

  /** All gates move as one cause demands. */
  predicate MovedBy(c: Cache, c': Cache, cause: Cause, config: Config) {
    && c'.nextRequired == GateAfter(c.nextRequired, cause, config, Required)
    && c'.nextProactive == GateAfter(c.nextProactive, cause, config, Proactive)
    && c'.nextReactive == GateAfter(c.nextReactive, cause, config, Reactive)
  }

  lemma OneMoreCause(c: Cache, c': Cache, causes: seq<Cause>, cause: Cause, config: Config)
    requires GatesAre(c, causes, config) && MovedBy(c, c', cause, config) && cause.at + config.cooldown > ZERO_TIME
    ensures GatesAre(c', causes + [cause], config)
  {
    hide GateIs, GateAfter;
    GateMoves(c.nextRequired, causes, cause, config, Required);
    GateMoves(c.nextProactive, causes, cause, config, Proactive);
    GateMoves(c.nextReactive, causes, cause, config, Reactive);
  }

  lemma FinishMoves(c: Cache, config: Config, now: Time, result: FetchResult)
    requires c.flight.Some? && now != ZERO_TIME
    ensures MovedBy(c, FinishFlight(c, config, now, result), Ended(now, c.flight.value, result.FetchFailed?), config)
  {
  }

  lemma LateMoves(c: Cache, config: Config, reason: Reason)
    requires c.lastAttemptAt != ZERO_TIME
    ensures MovedBy(c, SettleLate(c, config, reason), CameLate(c.lastAttemptAt, reason, c.lastAttemptError.Some?),
                    config)
  {
  }

  lemma MissMoves(c: Cache, config: Config)
    requires c.lastAttemptAt != ZERO_TIME
    ensures MovedBy(c, RecordCooldown(c, config, Reactive, c.lastAttemptAt), Missed(c.lastAttemptAt), config)
  {
  }

  ghost predicate SameGates(c: Cache, c': Cache) {
    c'.nextRequired == c.nextRequired && c'.nextProactive == c.nextProactive && c'.nextReactive == c.nextReactive
  }

  // ----- the account of every run

  /** The last attempt is that of the last closed flight, and the times that count are real. */
  ghost predicate Dated(s: System) {
    && (LastEnded(s).Some? ==> s.cache.lastAttemptAt == LastEnded(s).value.endedAt > ZERO_TIME
                               && s.cache.lastAttemptError == LastEnded(s).value.error)
    && (forall i :: 0 <= i < |s.causes| ==> s.causes[i].at > ZERO_TIME)
    && (s.causes != [] ==> LastEnded(s).Some?)
  }

  /** The sets installed hold keys, and the newest one falls due ahead of its expiry. */
  ghost predicate Stocked(s: System, config: Config) {
    |s.installs| > 0 ==>
      var last := s.installs[|s.installs| - 1];
      last.keys != map[] && s.cache.refreshAt == last.freshUntil - config.refreshAhead
  }

  /** The attempt that a key remembers was made. */
  ghost predicate Recalls(s: System, found: CachedKey) {
    found.refreshAttempted ==> found.refreshAttemptedAt > ZERO_TIME && LastEnded(s).Some?
  }

  ghost predicate ThreadDated(s: System, t: Thread) {
    match t.pc
    case Closing(_, _, _, _, now) => now > ZERO_TIME
    case Returned(_, _, _) => LastEnded(s).Some?
    case Rereading(_, _, _, _) => LastEnded(s).Some?
    case RecordMiss => LastEnded(s).Some?
    case HaveKey(found, _) => Recalls(s, found)
    case RetryStart(previous) => Recalls(s, previous)
    case RetryReady(previous, now) => Recalls(s, previous) && now > ZERO_TIME
    case ResolveReady(now) => now > ZERO_TIME
    case _ => true
  }

  ghost predicate Accounted(s: System, config: Config) {
    && GatesAre(s.cache, s.causes, config) && Dated(s) && Stocked(s, config)
    && forall id :: id in s.threads ==> ThreadDated(s, s.threads[id])
  }

  lemma MoveAccounted(s: System, s': System, config: Config, id: nat)
    requires Accounted(s, config) && GatesAre(s'.cache, s'.causes, config) && Dated(s') && Stocked(s', config)
    requires id in s'.threads && s'.threads == s.threads[id := s'.threads[id]] && ThreadDated(s', s'.threads[id])
    requires LastEnded(s).Some? ==> LastEnded(s').Some?
    ensures Accounted(s', config)
  {
    forall other | other in s'.threads && other != id
      ensures ThreadDated(s', s'.threads[other])
    {
      assert ThreadDated(s, s.threads[other]);
    }
  }

  /** A step that leaves the gates, the flights and the sets alone. */
  lemma CalmAccounted(s: System, s': System, config: Config, id: nat)
    requires Accounted(s, config) && SameCore(s.cache, s'.cache) && SameGates(s.cache, s'.cache)
    requires s'.cache.refreshAt == s.cache.refreshAt
    requires s'.flights == s.flights && s'.installs == s.installs && s'.causes == s.causes
    requires id in s'.threads && s'.threads == s.threads[id := s'.threads[id]] && ThreadDated(s', s'.threads[id])
    ensures Accounted(s', config)
  {
    MoveAccounted(s, s', config, id);
  }

  /** A step that adds one cause and leaves the flights and the sets alone. */
  lemma CauseAccounted(s: System, s': System, config: Config, id: nat, cause: Cause)
    requires Accounted(s, config) && SameCore(s.cache, s'.cache) && MovedBy(s.cache, s'.cache, cause, config)
    requires cause.at > ZERO_TIME && cause.at + config.cooldown > ZERO_TIME && LastEnded(s).Some?
    requires s'.cache.refreshAt == s.cache.refreshAt
    requires s'.flights == s.flights && s'.installs == s.installs && s'.causes == s.causes + [cause]
    requires id in s'.threads && s'.threads == s.threads[id := s'.threads[id]] && ThreadDated(s', s'.threads[id])
    ensures Accounted(s', config)
  {
    hide GatesAre, MovedBy, ThreadDated;
    OneMoreCause(s.cache, s'.cache, s.causes, cause, config);
    CauseDated(s, s', cause);
    hide Dated;
    MoveAccounted(s, s', config, id);
  }

  lemma CauseDated(s: System, s': System, cause: Cause)
    requires Dated(s) && SameCore(s.cache, s'.cache) && cause.at > ZERO_TIME && LastEnded(s).Some?
    requires s'.flights == s.flights && s'.causes == s.causes + [cause]
    ensures Dated(s') && LastEnded(s') == LastEnded(s)
  {
  }

  lemma ResolveAccounted(s: System, config: Config, id: nat, now: Time)
    requires Accounted(s, config) && id in s.threads
    ensures Accounted(StepResolve(s, id, now), config)
  {
    hide GatesAre, GateIs;
    CalmAccounted(s, StepResolve(s, id, now), config, id);
  }

  lemma RereadAccounted(s: System, config: Config, id: nat, caller: Caller, decision: Decision, succeeded: bool,
                        now: Time)
    requires Accounted(s, config) && id in s.threads && s.threads[id].pc == Rereading(caller, decision, succeeded, now)
    ensures Accounted(StepReread(s, id, caller, succeeded, now), config)
  {
    assert ThreadDated(s, s.threads[id]);
    hide GatesAre, GateIs;
    CalmAccounted(s, StepReread(s, id, caller, succeeded, now), config, id);
  }

  lemma LeadAccounted(s: System, config: Config, id: nat, caller: Caller, decision: Decision)
    requires Logged(s) && Accounted(s, config) && id in s.threads && s.cache.flight.None?
    requires s.cache.attempt == decision.observedAttempt
    ensures Accounted(StepEnter(s, config, id, caller, decision), config)
  {
    hide GateIs;
    MoveAccounted(s, StepEnter(s, config, id, caller, decision), config, id);
  }

  lemma JoinAccounted(s: System, config: Config, id: nat, caller: Caller, decision: Decision)
    requires Accounted(s, config) && id in s.threads && s.cache.flight.Some?
    ensures Accounted(StepEnter(s, config, id, caller, decision), config)
  {
    hide GateIs;
    CalmAccounted(s, StepEnter(s, config, id, caller, decision), config, id);
  }

  lemma LateAccounted(s: System, config: Config, id: nat, caller: Caller, decision: Decision)
    requires Logged(s) && Accounted(s, config) && config.Valid() && id in s.threads && s.cache.flight.None?
    requires decision.observedAttempt < s.cache.attempt
    ensures Accounted(StepEnter(s, config, id, caller, decision), config)
  {
    var s' := StepEnter(s, config, id, caller, decision);
    LateMoves(s.cache, config, decision.reason);
    LateKeepsCore(s.cache, config, decision.reason);
    hide GatesAre, SettleLate, MovedBy;
    CauseAccounted(s, s', config, id, CameLate(s.cache.lastAttemptAt, decision.reason, s.cache.lastAttemptError.Some?));
  }

  lemma LateKeepsCore(c: Cache, config: Config, reason: Reason)
    ensures var c' := SettleLate(c, config, reason); SameCore(c, c') && c'.refreshAt == c.refreshAt
  {
  }

  lemma CloseAccounted(s: System, config: Config, id: nat, caller: Caller, decision: Decision, number: nat,
                       result: FetchResult, now: Time)
    requires Inv(s) && Accounted(s, config) && config.Valid()
    requires id in s.threads && s.threads[id].pc == Closing(caller, decision, number, result, now)
    ensures Accounted(StepClose(s, config, id, caller, decision, number, result, now), config)
  {
    var s' := StepClose(s, config, id, caller, decision, number, result, now);
    assert ThreadOk(s, id, s.threads[id]) && ThreadDated(s, s.threads[id]);
    CloseDated(s, config, id, caller, decision, number, result, now);
    FinishMoves(s.cache, config, now, result);
    hide FinishFlight, MovedBy, GatesAre, Dated, Stocked, Inv;
    OneMoreCause(s.cache, s'.cache, s.causes, Ended(now, s.cache.flight.value, result.FetchFailed?), config);
    MoveAccounted(s, s', config, id);
  }

  lemma CloseDated(s: System, config: Config, id: nat, caller: Caller, decision: Decision, number: nat,
                   result: FetchResult, now: Time)
    requires Dated(s) && Stocked(s, config) && now > ZERO_TIME && s.cache.flight.Some? && number == |s.flights| > 0
    requires id in s.threads && (result.Fetched? ==> |result.keys| > 0)
    ensures var s' := StepClose(s, config, id, caller, decision, number, result, now);
            Dated(s') && Stocked(s', config) && LastEnded(s').Some?
  {
    FinishEffect(s.cache, config, now, result);
    hide FinishFlight;
  }

  lemma RetryMoves(s: System, config: Config, previous: CachedKey, now: Time, ref: KeyReference)
    requires s.cache.generation == |s.installs| && Recalls(s, previous) && s.cache.nextProactive != config.cooldown
    ensures var c' := LookAgain(s.cache, config, now, ref, previous).0;
            var causes := Rejection(s, config, previous, now);
            && SameCore(s.cache, c') && c'.refreshAt == s.cache.refreshAt
            && if causes == [] then SameGates(s.cache, c') else MovedBy(s.cache, c', causes[0], config)
  {
  }

  /** A closed proactive gate goes back to an attempt that was made. */
  lemma ProactiveGate(s: System, config: Config)
    requires Accounted(s, config) && config.Valid() && s.cache.nextProactive != ZERO_TIME
    ensures s.cache.nextProactive - config.cooldown > ZERO_TIME && s.causes != []
  {
    var i :| Stands(s.causes, i, Proactive) && s.causes[i].at + config.cooldown == s.cache.nextProactive;
    assert s.causes[i].at > ZERO_TIME;
  }

  lemma RetryLands(s: System, config: Config, id: nat, previous: CachedKey, now: Time)
    requires id in s.threads
    ensures var s' := StepRetry(s, config, id, previous, now);
            && s'.cache == LookAgain(s.cache, config, now, s.threads[id].ref, previous).0
            && s'.flights == s.flights && s'.installs == s.installs
            && s'.causes == s.causes + Rejection(s, config, previous, now)
            && id in s'.threads && s'.threads == s.threads[id := s'.threads[id]] && ThreadDated(s', s'.threads[id])
  {
    hide Rejection;
  }

  lemma RejectionIsReal(s: System, config: Config, previous: CachedKey, now: Time)
    requires Accounted(s, config) && config.Valid() && Recalls(s, previous) && now > ZERO_TIME
    ensures var causes := Rejection(s, config, previous, now);
            |causes| <= 1 && (causes != [] ==> causes[0].at > ZERO_TIME && LastEnded(s).Some?)
  {
    if s.cache.nextProactive != ZERO_TIME { ProactiveGate(s, config); }
  }

  lemma RetryAccounted(s: System, config: Config, id: nat, previous: CachedKey, now: Time)
    requires Logged(s) && Accounted(s, config) && config.Valid()
    requires id in s.threads && s.threads[id].pc == RetryReady(previous, now)
    ensures Accounted(StepRetry(s, config, id, previous, now), config)
  {
    var s', t := StepRetry(s, config, id, previous, now), s.threads[id];
    assert ThreadDated(s, t);
    if s.cache.nextProactive != ZERO_TIME { ProactiveGate(s, config); }
    hide StepRetry, LookAgain, Rejection, Accounted, Recalls, Stocked, Dated, SameCore, SameGates, MovedBy;
    RetryLands(s, config, id, previous, now);
    RetryMoves(s, config, previous, now, t.ref);
    RejectionIsReal(s, config, previous, now);
    var causes := Rejection(s, config, previous, now);
    if causes == [] {
      CalmAccounted(s, s', config, id);
    } else {
      assert causes == [causes[0]];
      CauseAccounted(s, s', config, id, causes[0]);
    }
  }

  lemma LocalLands(s: System, config: Config, id: nat, choice: Choice)
    requires Logged(s) && Accounted(s, config) && id in s.threads && !HasSection(s.threads[id].pc)
    requires ThreadOk(s, id, s.threads[id])
    ensures var s' := StepLocal(s, config, id, choice); ThreadDated(s', s'.threads[id])
  {
    hide GatesAre, Stocked, RecordCooldown;
    assert ThreadDated(s, s.threads[id]);
  }

  lemma LocalAccounted(s: System, config: Config, id: nat, choice: Choice)
    requires Inv(s) && Accounted(s, config) && config.Valid() && id in s.threads && !HasSection(s.threads[id].pc)
    ensures Accounted(StepLocal(s, config, id, choice), config)
  {
    var s' := StepLocal(s, config, id, choice);
    assert ThreadDated(s, s.threads[id]) && ThreadOk(s, id, s.threads[id]);
    LocalLands(s, config, id, choice);
    hide Inv, GatesAre, Stocked, LocalPc;
    if s.threads[id].pc.RecordMiss? {
      MissMoves(s.cache, config);
      hide MovedBy;
      CauseAccounted(s, s', config, id, Missed(s.cache.lastAttemptAt));
    } else {
      CalmAccounted(s, s', config, id);
    }
  }

  lemma EnterAccounted(s: System, config: Config, id: nat, caller: Caller, decision: Decision)
    requires Logged(s) && Accounted(s, config) && config.Valid() && id in s.threads
    requires decision.observedAttempt <= |s.flights|
    ensures Accounted(StepEnter(s, config, id, caller, decision), config)
  {
    hide Accounted, StepEnter;
    if s.cache.flight.Some? {
      JoinAccounted(s, config, id, caller, decision);
    } else if s.cache.attempt == decision.observedAttempt {
      LeadAccounted(s, config, id, caller, decision);
    } else {
      LateAccounted(s, config, id, caller, decision);
    }
  }

  lemma StepAccounted(s: System, config: Config, id: nat, choice: Choice)
    requires Inv(s) && Accounted(s, config) && config.Valid() && id in s.threads
    ensures Accounted(Step(s, config, id, choice), config)
  {
    var pc := s.threads[id].pc;
    assert ThreadOk(s, id, s.threads[id]);
    hide StepEnter, StepClose, StepResolve, StepReread, StepRetry, StepLocal, Accounted, Logged, Counted;
    if pc.Entering? {
      EnterAccounted(s, config, id, pc.caller, pc.decision);
    } else if pc.Closing? {
      CloseAccounted(s, config, id, pc.caller, pc.decision, pc.number, pc.result, pc.now);
    } else if pc.ResolveReady? {
      ResolveAccounted(s, config, id, pc.now);
    } else if pc.RetryReady? {
      RetryAccounted(s, config, id, pc.previous, pc.now);
    } else if pc.Rereading? {
      RereadAccounted(s, config, id, pc.caller, pc.decision, pc.succeeded, pc.now);
    } else {
      LocalAccounted(s, config, id, choice);
    }
  }

  lemma RestAccounted(s: System, config: Config, event: Event)
    requires Accounted(s, config) && (event.Act? ==> event.id !in s.threads)
    ensures Accounted(Apply(s, config, event), config)
  {
    hide Step, GatesAre;
    var s' := Apply(s, config, event);
    forall id | id in s'.threads
      ensures ThreadDated(s', s'.threads[id])
    {
      assert id in s.threads ==> ThreadDated(s, s.threads[id]);
    }
  }

  lemma BootAccounted(config: Config, clock: Time)
    ensures Accounted(Boot(clock), config)
  {
  }

  /** In every run, with any clock, each gate is the latest end of a cooldown that stands, and the newest set falls due
      ahead of its expiry. */
  lemma {:induction false} RunAccounted(config: Config, clock: Time, events: seq<Event>)
    requires config.Valid() && clock > ZERO_TIME
    ensures Inv(Run(config, clock, events)) && Accounted(Run(config, clock, events), config)
  {
    RunKeeps(config, clock, events);
    hide Inv, Step, Accounted;
    if events == [] {
      BootAccounted(config, clock);
    } else {
      var s, event := Run(config, clock, events[..|events| - 1]), events[|events| - 1];
      RunAccounted(config, clock, events[..|events| - 1]);
      if event.Act? && event.id in s.threads {
        StepAccounted(s, config, event.id, event.choice);
      } else {
        RestAccounted(s, config, event);
      }
    }
  }

  // ----- what every lookup answers

  /** A fetch of this reason is held off exactly until its gate. */
  lemma HeldExactly(s: System, config: Config, reason: Reason, t: Time)
    requires Accounted(s, config) && 0 <= t
    ensures Held(s, config, reason, t) <==> t < Gate(s.cache, reason)
  {
    hide Stands;
    assert GateIs(Gate(s.cache, reason), s.causes, config, reason);
  }

  /** The newest set installed has not expired. */
  predicate Unexpired(s: System, t: Time) {
    |s.installs| > 0 && t < s.installs[|s.installs| - 1].freshUntil
  }

  /** The newest set holds the key. */
  predicate Lists(s: System, ref: KeyReference) {
    |s.installs| > 0 && ref in s.installs[|s.installs| - 1].keys
  }

  /** The key of the newest set, as a caller gets it. */
  function Newest(s: System, ref: KeyReference, attemptedAt: Option<Time>): CachedKey
    requires Lists(s, ref)
  {
    CachedKey(s.installs[|s.installs| - 1].keys[ref], |s.installs|, attemptedAt.Some?,
              if attemptedAt.Some? then attemptedAt.value else ZERO_TIME)
  }

  /** The newest set is due for a refresh. */
  predicate Due(s: System, config: Config, t: Time) {
    |s.installs| > 0 && s.installs[|s.installs| - 1].freshUntil - config.refreshAhead <= t
  }

  lemma FreshExactly(s: System, config: Config, t: Time, ref: KeyReference)
    requires Logged(s) && Accounted(s, config)
    ensures s.cache.Fresh(t) <==> Unexpired(s, t)
    ensures ref in s.cache.keys <==> Lists(s, ref)
    ensures Lists(s, ref) ==> s.cache.keys[ref] == s.installs[|s.installs| - 1].keys[ref]
    ensures |s.installs| > 0 ==> (s.cache.refreshAt <= t <==> Due(s, config, t))
  {
    hide GatesAre;
    assert s.cache.keys != map[] ==> |s.cache.keys| > 0;
  }

  /** Why a lookup would refresh. */
  predicate Wants(s: System, ref: KeyReference, t: Time, reason: Reason) {
    match reason
    case Required => !Unexpired(s, t)
    case Proactive => Unexpired(s, t) && Lists(s, ref)
    case Reactive => Unexpired(s, t) && !Lists(s, ref)
  }

  /** The first lookup, in every reachable state: the newest key exactly when its set is unexpired and not due or
      held off, a refusal exactly when a fetch is needed and held off, and a refresh for the right reason otherwise. */
  lemma FirstLookupExactly(config: Config, clock: Time, events: seq<Event>, id: nat, now: Time, choice: Choice)
    requires config.Valid() && clock > ZERO_TIME
    requires var s := Run(config, clock, events); id in s.threads && s.threads[id].pc == ResolveReady(now)
    ensures var s := Run(config, clock, events); var ref := s.threads[id].ref;
            var pc := Step(s, config, id, choice).threads[id].pc;
            && (pc.HaveKey? <==> Unexpired(s, now) && Lists(s, ref)
                                 && (!Due(s, config, now) || Held(s, config, Proactive, now)))
            && (pc.HaveKey? ==> pc == HaveKey(Newest(s, ref, None), now))
            && (pc == Done(Refused(NoMatchingKey)) <==>
                  Unexpired(s, now) && !Lists(s, ref) && Held(s, config, Reactive, now))
            && (pc == Done(Refused(KeySourceUnavailable)) <==> !Unexpired(s, now) && Held(s, config, Required, now))
            && (pc.HaveKey? || pc.Done? || pc.Entering?)
            && (pc.Done? ==> pc.outcome.Refused? && !pc.outcome.error.Cancelled?)
            && (pc.Entering? ==>
                  && pc.caller == FromResolve && pc.decision.observedAttempt == |s.flights|
                  && pc.decision.decidedAt == now && Wants(s, ref, now, pc.decision.reason))
  {
    hide Run;
    RunAccounted(config, clock, events);
    var s := Run(config, clock, events);
    assert ThreadDated(s, s.threads[id]);
    FreshExactly(s, config, now, s.threads[id].ref);
    HeldExactly(s, config, Required, now);
    HeldExactly(s, config, Proactive, now);
    HeldExactly(s, config, Reactive, now);
    CausesMeanAttempts(s, config);
    hide Accounted, Inv, Held;
  }

  /** A gate is closed only after some flight. */
  lemma CausesMeanAttempts(s: System, config: Config)
    requires Logged(s) && Accounted(s, config)
    ensures s.cache.nextRequired > ZERO_TIME ==> s.cache.attempt > 0
  {
    if s.cache.nextRequired > ZERO_TIME {
      var i :| Stands(s.causes, i, Required) && s.causes[i].at + config.cooldown == s.cache.nextRequired;
      assert s.causes != [];
    }
  }

  /** In every run a fetch of a reason is held off at a time exactly when the time lies before its gate. */
  lemma GatesCloseExactly(config: Config, clock: Time, events: seq<Event>, reason: Reason, t: Time)
    requires config.Valid() && clock > ZERO_TIME && 0 <= t
    ensures var s := Run(config, clock, events); t < Gate(s.cache, reason) <==> Held(s, config, reason, t)
  {
    RunAccounted(config, clock, events);
    hide Run, Accounted;
    HeldExactly(Run(config, clock, events), config, reason, t);
  }

  /** After a signature failure, in every reachable state. Against a newer set the key is handed out exactly when that
      set is unexpired and lists it, and the refusal says what is missing. Against the same set the call ends when a
      proactive or reactive attempt cools down or the key came from an attempt of its own, and refreshes otherwise. */
  lemma RetryExactly(config: Config, clock: Time, events: seq<Event>, id: nat, previous: CachedKey, now: Time,
                     choice: Choice)
    requires config.Valid() && clock > ZERO_TIME
    requires var s := Run(config, clock, events); id in s.threads && s.threads[id].pc == RetryReady(previous, now)
    ensures var s := Run(config, clock, events); var ref := s.threads[id].ref;
            var pc := Step(s, config, id, choice).threads[id].pc;
            && previous.generation <= |s.installs|
            && (previous.generation < |s.installs| ==>
                  && (pc.HaveRetryKey? <==> Unexpired(s, now) && Lists(s, ref))
                  && (pc.HaveRetryKey? ==> pc == HaveRetryKey(previous, Newest(s, ref, None), now))
                  && (pc == Done(Refused(NoMatchingKey)) <==> Unexpired(s, now) && !Lists(s, ref))
                  && (pc == Done(Refused(KeySourceUnavailable)) <==> !Unexpired(s, now)))
            && (previous.generation == |s.installs| ==>
                  var held := Held(s, config, Proactive, now) || Held(s, config, Reactive, now);
                  && (pc == Done(SignatureInvalid) <==> held || previous.refreshAttempted)
                  && (pc.Entering? <==> !held && !previous.refreshAttempted)
                  && (pc.Entering? ==>
                        && pc.caller == FromRetry(previous, Unexpired(s, now))
                        && pc.decision.observedAttempt == |s.flights| && pc.decision.reason == Reactive
                        && pc.decision.decidedAt == now))
  {
    hide Run;
    RunAccounted(config, clock, events);
    var s := Run(config, clock, events);
    assert ThreadDated(s, s.threads[id]) && ThreadOk(s, id, s.threads[id]);
    FreshExactly(s, config, now, s.threads[id].ref);
    HeldExactly(s, config, Proactive, now);
    HeldExactly(s, config, Reactive, now);
    hide Accounted, Inv, Held, Rejection, RecordCooldown;
  }

  /** The second lookup after a refresh, in every reachable state. Resolving gives the newest key, marked with the last
      attempt, exactly when its set is unexpired and lists it. A retry gives it only after a refresh that succeeded. */
  lemma SecondLookupExactly(config: Config, clock: Time, events: seq<Event>, id: nat, choice: Choice)
    requires config.Valid() && clock > ZERO_TIME
    requires var s := Run(config, clock, events); id in s.threads && s.threads[id].pc.Rereading?
    ensures var s := Run(config, clock, events); var ref, was := s.threads[id].ref, s.threads[id].pc;
            var pc := Step(s, config, id, choice).threads[id].pc;
            && LastEnded(s).Some?
            && (was.caller.FromResolve? ==>
                  && (pc.HaveKey? <==> Unexpired(s, was.now) && Lists(s, ref))
                  && (pc.HaveKey? ==> pc == HaveKey(Newest(s, ref, Some(LastEnded(s).value.endedAt)), was.now))
                  && (pc == RecordMiss <==> Unexpired(s, was.now) && !Lists(s, ref) && was.succeeded)
                  && (pc == Done(Refused(NoMatchingKey)) <==> Unexpired(s, was.now) && !Lists(s, ref) && !was.succeeded)
                  && (pc == Done(Refused(KeySourceUnavailable)) <==> !Unexpired(s, was.now)))
            && (was.caller.FromRetry? ==>
                  && (pc.HaveRetryKey? <==> was.succeeded && Unexpired(s, was.now) && Lists(s, ref))
                  && (pc.HaveRetryKey? ==> pc == HaveRetryKey(was.caller.previous, Newest(s, ref, None), was.now))
                  && (pc == Done(Refused(NoMatchingKey)) <==>
                        Unexpired(s, was.now) && if was.succeeded then !Lists(s, ref) else was.caller.freshBefore)
                  && (pc == Done(Refused(KeySourceUnavailable)) <==>
                        !Unexpired(s, was.now) || (!was.succeeded && !was.caller.freshBefore)))
  {
    hide Run;
    RunAccounted(config, clock, events);
    var s := Run(config, clock, events);
    assert ThreadDated(s, s.threads[id]);
    FreshExactly(s, config, s.threads[id].pc.now, s.threads[id].ref);
    assert s.cache.lastAttemptAt == LastEnded(s).value.endedAt;
    hide Accounted, Inv;
  }

  /** The last flight logged is still open. */
  predicate Running(s: System) {
    |s.flights| > 0 && !s.flights[|s.flights| - 1].closed
  }

  /** Entering a refresh, in every reachable state: a caller joins exactly when a flight is running, leads a new one
      exactly when none is and none began since it looked, and else takes over the outcome of the last one. */
  lemma EntryExactly(config: Config, clock: Time, events: seq<Event>, id: nat, choice: Choice)
    requires config.Valid() && clock > ZERO_TIME
    requires var s := Run(config, clock, events); id in s.threads && s.threads[id].pc.Entering?
    ensures var s := Run(config, clock, events); var Entering(caller, decision) := s.threads[id].pc;
            var s' := Step(s, config, id, choice); var pc := s'.threads[id].pc; var n := |s.flights|;
            && decision.observedAttempt <= n
            && (pc == Waiting(caller, decision, n) <==> Running(s))
            && (pc == Fetching(caller, decision, n + 1) <==> !Running(s) && decision.observedAttempt == n)
            && (pc.Returned? <==> !Running(s) && decision.observedAttempt < n)
            && (pc.Returned? ==> pc == Returned(caller, decision, s.flights[n - 1].error.None?))
            && |s'.flights| == (if pc.Fetching? then n + 1 else n)
  {
    hide Run;
    RunKeeps(config, clock, events);
    var s := Run(config, clock, events);
    assert ThreadOk(s, id, s.threads[id]);
    hide Inv, Counted, SettleLate;
  }

  /** A follower that waits, in every reachable state, is released exactly when its flight is closed, and then with the
      outcome of that flight. */
  lemma WaitingExactly(config: Config, clock: Time, events: seq<Event>, id: nat, choice: Choice)
    requires clock > ZERO_TIME && !choice.Cancel?
    requires var s := Run(config, clock, events); id in s.threads && s.threads[id].pc.Waiting?
    ensures var s := Run(config, clock, events); var was := s.threads[id].pc;
            var pc := Step(s, config, id, choice).threads[id].pc;
            && 0 < was.number <= |s.flights|
            && (pc.Returned? <==> s.flights[was.number - 1].closed)
            && (pc.Returned? ==> pc == Returned(was.caller, was.decision, s.flights[was.number - 1].Succeeded()))
            && (!pc.Returned? ==> pc == was)
  {
    hide Run;
    RunKeeps(config, clock, events);
    var s := Run(config, clock, events);
    assert ThreadOk(s, id, s.threads[id]);
    hide Inv, Counted;
  }

  /** A cancelled context ends a call exactly before a lookup, while it waits and after a refresh that failed; a refresh
      that succeeded is never lost to it. */
  lemma CancellationExactly(s: System, config: Config, id: nat, choice: Choice)
    requires id in s.threads && !s.threads[id].pc.Done?
    ensures var was, pc := s.threads[id].pc, Step(s, config, id, choice).threads[id].pc;
            pc == Done(Refused(Cancelled)) <==>
            choice.Cancel? && (was.Start? || was.RetryStart? || was.Waiting? || (was.Returned? && !was.succeeded))
  {
    hide FetchEnd, LastEnded, Rejection, RecordCooldown, FinishFlight, SettleLate;
  }
}
