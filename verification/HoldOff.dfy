/** When a fetch falls within the cooldown of an earlier one, exactly, under a clock that never steps back.

    The times of decisions, of clock readings and of flight ends are related over every run. */
module HoldOff {
  import opened Wrappers
  import opened KeyCache
  import opened Authenticate
  import opened RefreshThrottle

  // ----- how times are related

  /** The latest installed set carries the time of the flight that fetched it. */
  ghost predicate Reopened(c: Cache, flights: seq<FlightLog>, config: Config) {
    forall k :: 0 <= k < |flights| && flights[k].Succeeded() && NoSuccessBetween(flights, k, |flights|) ==>
      && |c.keys| > 0 && c.freshUntil == flights[k].endedAt + config.freshness
      && c.refreshAt == flights[k].endedAt + config.freshness - config.refreshAhead
  }

  /** A required or proactive decision lies after the last success before it: the set had to age first. */
  ghost predicate AfterSuccess(flights: seq<FlightLog>, d: Decision)
    requires 0 <= Horizon(d) <= |flights|
  {
    forall k :: 0 <= k < Horizon(d) && flights[k].Succeeded() && NoSuccessBetween(flights, k, Horizon(d)) ==>
      flights[k].endedAt < d.decidedAt
  }

  /** How the decision relates to the end of the fetch that was running. */
  ghost predicate FetchKnown(s: System, d: Decision) {
    0 < d.observedAttempt <= |s.flights| &&
    var log := s.flights[d.observedAttempt - 1];
    if log.closed then EndKnown(d, log.endedAt)
    else
      && log.leader in s.threads
      && (s.threads[log.leader].pc.Fetching? ==> d.fetchEnd.None?)
      && (s.threads[log.leader].pc.Closing? ==> EndKnown(d, s.threads[log.leader].pc.now))
  }

  predicate EndKnown(d: Decision, end: Time) {
    if d.fetchEnd.Some? then end == d.fetchEnd.value else d.decidedAt <= end
  }

  ghost predicate DecisionTimed(s: System, d: Decision) {
    && d.decidedAt <= s.clock && 0 <= Horizon(d) <= |s.flights|
    && (forall n :: 0 <= n < Horizon(d) ==> s.flights[n].closed)
    && (!d.reason.Reactive? ==> AfterSuccess(s.flights, d))
    && (d.duringFlight ==> FetchKnown(s, d))
  }

  ghost predicate ThreadTimed(s: System, t: Thread) {
    match t.pc
    case ResolveReady(now) => now <= s.clock
    case RetryReady(_, now) => now <= s.clock
    case Entering(_, decision) => DecisionTimed(s, decision)
    case Closing(_, _, _, _, now) => |s.flights| > 0 ==> s.flights[|s.flights| - 1].decision.decidedAt <= now
    case _ => true
  }

  /** Each flight ends after its own decision. */
  ghost predicate Ordered(s: System) {
    forall n :: 0 <= n < |s.flights| && s.flights[n].closed ==> s.flights[n].decision.decidedAt <= s.flights[n].endedAt
  }

  ghost predicate Timed(s: System, config: Config) {
    && Reopened(s.cache, s.flights, config) && Ordered(s) && Manned(s)
    && (forall id :: id in s.threads ==> ThreadTimed(s, s.threads[id]))
    && (forall m :: 0 <= m < |s.flights| ==> DecisionTimed(s, s.flights[m].decision))
  }

  /** What a step does to the running flight: nothing, its fetch ends now, or it closes at the reading of its leader. */
  ghost predicate GoesOn(s: System, s': System, n: nat)
    requires n < |s.flights| <= |s'.flights| && s.flights[n].leader in s.threads
  {
    var leader := s.flights[n].leader;
    var pc := s.threads[leader].pc;
    if s'.flights[n].closed then pc.Closing? && s'.flights[n].endedAt == pc.now
    else
      && s'.flights[n].leader == leader && leader in s'.threads
      && var pc' := s'.threads[leader].pc;
         && (pc'.Fetching? ==> pc.Fetching?)
         && (pc'.Closing? ==> if pc.Closing? then pc'.now == pc.now else pc.Fetching? && pc'.now == s.clock)
  }

  ghost predicate Carries(s: System, s': System) {
    && s.clock <= s'.clock && |s.flights| <= |s'.flights|
    && (forall n :: 0 <= n < |s.flights| && s.flights[n].closed ==> s'.flights[n] == s.flights[n])
    && (forall n :: 0 <= n < |s.flights| && !s.flights[n].closed && s.flights[n].leader in s.threads ==>
        GoesOn(s, s', n))
  }

  lemma SuccessStays(s: System, s': System, d: Decision)
    requires Carries(s, s') && 0 <= Horizon(d) <= |s.flights|
    requires forall n :: 0 <= n < Horizon(d) ==> s.flights[n].closed
    requires AfterSuccess(s.flights, d)
    ensures AfterSuccess(s'.flights, d)
  {
    forall k | 0 <= k < Horizon(d) && s'.flights[k].Succeeded() && NoSuccessBetween(s'.flights, k, Horizon(d))
      ensures s'.flights[k].endedAt < d.decidedAt
    {
      forall j | k < j < Horizon(d)
        ensures !s.flights[j].Succeeded()
      {
        assert !s'.flights[j].Succeeded();
      }
      assert NoSuccessBetween(s.flights, k, Horizon(d));
    }
  }

  /** What is known of a decision stays known. */
  lemma DecisionStays(s: System, s': System, d: Decision)
    requires DecisionTimed(s, d) && Carries(s, s')
    ensures DecisionTimed(s', d)
  {
    if !d.reason.Reactive? { SuccessStays(s, s', d); }
    if d.duringFlight {
      var n := d.observedAttempt - 1;
      if !s.flights[n].closed { assert GoesOn(s, s', n); }
    }
  }

  lemma ThreadStays(s: System, s': System, t: Thread)
    requires ThreadTimed(s, t) && Carries(s, s') && (t.pc.Closing? ==> s'.flights == s.flights)
    ensures ThreadTimed(s', t)
  {
    if t.pc.Entering? { DecisionStays(s, s', t.pc.decision); }
  }

  /** The pattern of every step: one thread moves, and what was known stays known. */
  lemma MoveTimed(s: System, s': System, config: Config, id: nat)
    requires Timed(s, config) && Carries(s, s')
    requires id in s'.threads && s'.threads == s.threads[id := s'.threads[id]] && ThreadTimed(s', s'.threads[id])
    requires Reopened(s'.cache, s'.flights, config) && Ordered(s') && Manned(s')
    requires forall m :: 0 <= m < |s.flights| ==> s'.flights[m].decision == s.flights[m].decision
    requires forall m :: |s.flights| <= m < |s'.flights| ==> DecisionTimed(s', s'.flights[m].decision)
    requires s'.flights == s.flights || forall other | other in s.threads && other != id ::
             !s.threads[other].pc.Closing?
    ensures Timed(s', config)
  {
    forall other | other in s'.threads && other != id
      ensures ThreadTimed(s', s'.threads[other])
    {
      ThreadStays(s, s', s.threads[other]);
    }
    forall m | 0 <= m < |s.flights|
      ensures DecisionTimed(s', s'.flights[m].decision)
    {
      DecisionStays(s, s', s.flights[m].decision);
    }
  }

  /** Outside the entry and closing sections the flights and what the cache serves stand still. */
  ghost predicate Still(s: System, s': System, id: nat)
    requires id in s.threads
  {
    && s'.clock == s.clock && s'.flights == s.flights && id in s'.threads
       && s'.threads == s.threads[id := s'.threads[id]]
    && s'.cache.keys == s.cache.keys && s'.cache.freshUntil == s.cache.freshUntil
       && s'.cache.refreshAt == s.cache.refreshAt
    && (s'.cache.flight.Some? <==> s.cache.flight.Some?)
    && var pc, pc' := s.threads[id].pc, s'.threads[id].pc;
       && (InFlight(pc) ==> InFlight(pc')) && (pc'.Fetching? ==> pc.Fetching?)
       && (pc'.Closing? ==> pc.Fetching? && pc'.now == s.clock)
  }

  lemma StillCarries(s: System, s': System, id: nat)
    requires id in s.threads && !s.threads[id].pc.Closing? && Still(s, s', id) && Manned(s)
    ensures Carries(s, s') && Manned(s')
  {
  }

  lemma StillTimed(s: System, s': System, config: Config, id: nat)
    requires Timed(s, config) && id in s.threads && !s.threads[id].pc.Closing? && Still(s, s', id)
    requires ThreadTimed(s', s'.threads[id])
    ensures Timed(s', config)
  {
    StillCarries(s, s', id);
    MoveTimed(s, s', config, id);
  }

  // ----- decisions

  /** A decision taken now: the sets that mattered have aged, and the running fetch is noted. */
  lemma DecisionTaken(s: System, config: Config, d: Decision)
    requires Logged(s) && Manned(s) && Reopened(s.cache, s.flights, config) && config.Valid()
    requires d.observedAttempt == s.cache.attempt && d.duringFlight == s.cache.flight.Some? && d.fetchEnd == FetchEnd(s)
    requires d.decidedAt <= s.clock
    requires !d.reason.Reactive? && |s.cache.keys| > 0 ==>
             s.cache.freshUntil <= d.decidedAt || s.cache.refreshAt <= d.decidedAt
    ensures DecisionTimed(s, d)
  {
    if !d.reason.Reactive? {
      forall k | 0 <= k < Horizon(d) && s.flights[k].Succeeded() && NoSuccessBetween(s.flights, k, Horizon(d))
        ensures s.flights[k].endedAt < d.decidedAt
      {
        assert NoSuccessBetween(s.flights, k, |s.flights|);
      }
    }
  }

  lemma LookAges(c: Cache, now: Time, ref: KeyReference)
    requires Look(c, now, ref).NeedsRefresh?
    ensures var reason := Look(c, now, ref).reason;
            !reason.Reactive? && |c.keys| > 0 ==> c.freshUntil <= now || c.refreshAt <= now
  {
  }

  lemma ResolveTimed(s: System, config: Config, id: nat, now: Time)
    requires Logged(s) && Timed(s, config) && config.Valid() && id in s.threads && s.threads[id].pc == ResolveReady(now)
    ensures Timed(StepResolve(s, id, now), config)
  {
    var s' := StepResolve(s, id, now);
    assert ThreadTimed(s, s.threads[id]);
    if Look(s.cache, now, s.threads[id].ref).NeedsRefresh? {
      LookAges(s.cache, now, s.threads[id].ref);
      var d := s'.threads[id].pc.decision;
      DecisionTaken(s, config, d);
      StillCarries(s, s', id);
      DecisionStays(s, s', d);
    }
    hide Timed, Reopened, Ordered;
    StillTimed(s, s', config, id);
  }

  lemma RetryIsStill(s: System, config: Config, id: nat, previous: CachedKey, now: Time)
    requires id in s.threads && s.threads[id].pc == RetryReady(previous, now)
    ensures Still(s, StepRetry(s, config, id, previous, now), id)
  {
  }

  lemma RetryTimed(s: System, config: Config, id: nat, previous: CachedKey, now: Time)
    requires Logged(s) && Timed(s, config) && config.Valid() && id in s.threads
             && s.threads[id].pc == RetryReady(previous, now)
    ensures Timed(StepRetry(s, config, id, previous, now), config)
  {
    var s' := StepRetry(s, config, id, previous, now);
    assert ThreadTimed(s, s.threads[id]);
    RetryIsStill(s, config, id, previous, now);
    if s'.threads[id].pc.Entering? {
      var d := s'.threads[id].pc.decision;
      DecisionTaken(s, config, d);
      StillCarries(s, s', id);
      DecisionStays(s, s', d);
    }
    hide Timed, Reopened, Ordered, Still;
    StillTimed(s, s', config, id);
  }

  lemma RereadTimed(s: System, config: Config, id: nat, caller: Caller, decision: Decision, succeeded: bool, now: Time)
    requires Timed(s, config) && id in s.threads && s.threads[id].pc == Rereading(caller, decision, succeeded, now)
    ensures Timed(StepReread(s, id, caller, succeeded, now), config)
  {
    hide Timed;
    StillTimed(s, StepReread(s, id, caller, succeeded, now), config, id);
  }

  lemma LocalIsStill(s: System, config: Config, id: nat, choice: Choice)
    requires id in s.threads && !HasSection(s.threads[id].pc)
    ensures Still(s, StepLocal(s, config, id, choice), id)
  {
  }

  /** Outside the sections the only readings taken are of the present clock. */
  lemma LocalReads(s: System, config: Config, id: nat, choice: Choice)
    requires Inv(s) && Timed(s, config) && id in s.threads && !HasSection(s.threads[id].pc)
    ensures var s' := StepLocal(s, config, id, choice); ThreadTimed(s', s'.threads[id])
  {
    if s.threads[id].pc.Fetching? {
      assert ThreadOk(s, id, s.threads[id]);
      var last := |s.flights| - 1;
      assert DecisionTimed(s, s.flights[last].decision);
    }
  }

  lemma LocalTimed(s: System, config: Config, id: nat, choice: Choice)
    requires Inv(s) && Timed(s, config) && id in s.threads && !HasSection(s.threads[id].pc)
    ensures Timed(StepLocal(s, config, id, choice), config)
  {
    LocalIsStill(s, config, id, choice);
    LocalReads(s, config, id, choice);
    hide Timed, Still, StepLocal, ThreadTimed;
    StillTimed(s, StepLocal(s, config, id, choice), config, id);
  }

  // ----- entering, closing and the rest

  lemma LateEntryTimed(s: System, config: Config, id: nat, caller: Caller, decision: Decision)
    requires Timed(s, config) && id in s.threads && s.threads[id].pc == Entering(caller, decision)
    requires s.cache.flight.Some? || s.cache.attempt != decision.observedAttempt
    ensures Timed(StepEnter(s, config, id, caller, decision), config)
  {
    hide Timed;
    StillTimed(s, StepEnter(s, config, id, caller, decision), config, id);
  }

  lemma LeadCarries(s: System, s': System, config: Config, id: nat, caller: Caller, decision: Decision)
    requires Logged(s) && Timed(s, config) && s.cache.flight.None? && id in s.threads
             && Led(s, s', id, caller, decision)
    ensures Carries(s, s') && Ordered(s') && Manned(s') && Reopened(s'.cache, s'.flights, config)
    ensures forall m :: 0 <= m < |s.flights| ==> s'.flights[m] == s.flights[m]
  {
    forall n | 0 <= n < |s.flights|
      ensures s'.flights[n] == s.flights[n]
    {
      assert s'.flights[..|s.flights|][n] == s'.flights[n];
    }
    forall k | 0 <= k < |s'.flights| && s'.flights[k].Succeeded() && NoSuccessBetween(s'.flights, k, |s'.flights|)
      ensures |s'.cache.keys| > 0 && s'.cache.freshUntil == s'.flights[k].endedAt + config.freshness
      ensures s'.cache.refreshAt == s'.flights[k].endedAt + config.freshness - config.refreshAhead
    {
      forall j | k < j < |s.flights|
        ensures !s.flights[j].Succeeded()
      {
        assert !s'.flights[j].Succeeded();
      }
      assert NoSuccessBetween(s.flights, k, |s.flights|);
    }
  }

  lemma NobodyCloses(s: System)
    requires Inv(s) && s.cache.flight.None?
    ensures forall other | other in s.threads :: !s.threads[other].pc.Closing?
  {
    forall other | other in s.threads
      ensures !s.threads[other].pc.Closing?
    {
      assert ThreadOk(s, other, s.threads[other]);
    }
  }

  lemma LeadTimed(s: System, config: Config, id: nat, caller: Caller, decision: Decision)
    requires Inv(s) && Timed(s, config) && id in s.threads && s.threads[id].pc == Entering(caller, decision)
    requires s.cache.flight.None? && s.cache.attempt == decision.observedAttempt
    ensures Timed(StepEnter(s, config, id, caller, decision), config)
  {
    var s' := StepEnter(s, config, id, caller, decision);
    assert ThreadTimed(s, s.threads[id]);
    EnterLeads(s, config, id, caller, decision);
    hide StepEnter;
    LeadCarries(s, s', config, id, caller, decision);
    NobodyCloses(s);
    hide Timed, Inv, Carries, Ordered, Manned, Reopened, DecisionTimed;
    DecisionStays(s, s', decision);
    MoveTimed(s, s', config, id);
  }

  /** A flight has been closed at the reading of its leader. */
  ghost predicate ClosedAt(s: System, s': System, config: Config, result: FetchResult, now: Time) {
    && |s'.flights| == |s.flights| > 0 && s'.clock == s.clock
    && (forall n :: 0 <= n < |s.flights| - 1 ==> s'.flights[n] == s.flights[n])
    && Finished(s.cache, s'.cache, config, now, result)
    && var log, was := s'.flights[|s.flights| - 1], s.flights[|s.flights| - 1];
       && log.closed && log.endedAt == now && (log.error.None? <==> result.Fetched?)
       && log.decision == was.decision && log.leader == was.leader
  }

  lemma CloseIsAt(s: System, config: Config, id: nat, caller: Caller, decision: Decision, number: nat,
                  result: FetchResult, now: Time)
    requires id in s.threads && s.cache.flight.Some? && number == |s.flights| > 0
    ensures ClosedAt(s, StepClose(s, config, id, caller, decision, number, result, now), config, result, now)
  {
    FinishEffect(s.cache, config, now, result);
  }

  lemma CloseReopens(s: System, s': System, config: Config, result: FetchResult, now: Time)
    requires Logged(s) && s.cache.flight.Some? && Reopened(s.cache, s.flights, config)
    requires ClosedAt(s, s', config, result, now) && (result.Fetched? ==> |result.keys| > 0)
    ensures Reopened(s'.cache, s'.flights, config)
  {
    var last := |s.flights| - 1;
    forall k | 0 <= k < |s'.flights| && s'.flights[k].Succeeded() && NoSuccessBetween(s'.flights, k, |s'.flights|)
      ensures |s'.cache.keys| > 0 && s'.cache.freshUntil == s'.flights[k].endedAt + config.freshness
      ensures s'.cache.refreshAt == s'.flights[k].endedAt + config.freshness - config.refreshAhead
    {
      if k < last {
        assert !s'.flights[last].Succeeded();
        forall j | k < j < |s.flights|
          ensures !s.flights[j].Succeeded()
        {
          assert !s'.flights[j].Succeeded();
        }
        assert NoSuccessBetween(s.flights, k, |s.flights|);
      }
    }
  }

  lemma CloseCarries(s: System, s': System, config: Config, result: FetchResult, now: Time)
    requires Logged(s) && Timed(s, config) && s.cache.flight.Some? && ClosedAt(s, s', config, result, now)
    requires var leader := s.flights[|s.flights| - 1].leader;
             leader in s.threads && s.threads[leader].pc.Closing? && s.threads[leader].pc.now == now
    ensures Carries(s, s') && Ordered(s') && Manned(s')
  {
    assert ThreadTimed(s, s.threads[s.flights[|s.flights| - 1].leader]);
    hide Reopened, DecisionTimed;
  }

  lemma SoleCloser(s: System, id: nat)
    requires Inv(s) && id in s.threads && s.threads[id].pc.Closing?
    ensures forall other | other in s.threads && other != id :: !s.threads[other].pc.Closing?
  {
    forall other | other in s.threads && other != id
      ensures !s.threads[other].pc.Closing?
    {
      if s.threads[other].pc.Closing? { SoleFlight(s, id, other); }
    }
  }

  lemma CloseTimed(s: System, config: Config, id: nat, caller: Caller, decision: Decision, number: nat,
                   result: FetchResult, now: Time)
    requires Inv(s) && Timed(s, config) && id in s.threads
             && s.threads[id].pc == Closing(caller, decision, number, result, now)
    ensures Timed(StepClose(s, config, id, caller, decision, number, result, now), config)
  {
    var s' := StepClose(s, config, id, caller, decision, number, result, now);
    assert ThreadOk(s, id, s.threads[id]);
    CloseIsAt(s, config, id, caller, decision, number, result, now);
    assert s'.threads == s.threads[id := s'.threads[id]] && s'.threads[id].pc.Returned?;
    hide StepClose, Carries, Ordered, Manned, Reopened, DecisionTimed, Finished;
    CloseReopens(s, s', config, result, now);
    CloseCarries(s, s', config, result, now);
    SoleCloser(s, id);
    hide Timed, Inv;
    MoveTimed(s, s', config, id);
  }

  lemma StepTimed(s: System, config: Config, id: nat, choice: Choice)
    requires Inv(s) && Timed(s, config) && config.Valid() && id in s.threads
    ensures Timed(Step(s, config, id, choice), config)
  {
    hide StepEnter, StepClose, StepResolve, StepReread, StepRetry, StepLocal, Timed, Logged, Counted, ThreadOk;
    var pc := s.threads[id].pc;
    if pc.Entering? {
      var Entering(caller, decision) := pc;
      if s.cache.flight.None? && s.cache.attempt == decision.observedAttempt {
        LeadTimed(s, config, id, caller, decision);
      } else {
        LateEntryTimed(s, config, id, caller, decision);
      }
    } else if pc.Closing? {
      CloseTimed(s, config, id, pc.caller, pc.decision, pc.number, pc.result, pc.now);
    } else if pc.ResolveReady? {
      ResolveTimed(s, config, id, pc.now);
    } else if pc.RetryReady? {
      RetryTimed(s, config, id, pc.previous, pc.now);
    } else if pc.Rereading? {
      RereadTimed(s, config, id, pc.caller, pc.decision, pc.succeeded, pc.now);
    } else {
      LocalTimed(s, config, id, choice);
    }
  }

  lemma OtherTimed(s: System, s': System, config: Config)
    requires Timed(s, config) && s'.cache == s.cache && s'.flights == s.flights && s.clock <= s'.clock
    requires forall id :: id in s.threads ==> id in s'.threads && s'.threads[id] == s.threads[id]
    requires forall id :: id in s'.threads && id !in s.threads ==> s'.threads[id].pc.Start?
    ensures Timed(s', config)
  {
    assert Carries(s, s');
    forall id | id in s'.threads
      ensures ThreadTimed(s', s'.threads[id])
    {
      if id in s.threads { ThreadStays(s, s', s.threads[id]); }
    }
    forall m | 0 <= m < |s.flights|
      ensures DecisionTimed(s', s'.flights[m].decision)
    {
      DecisionStays(s, s', s.flights[m].decision);
    }
  }

  lemma {:induction false} RunTimed(config: Config, clock: Time, events: seq<Event>)
    requires config.Valid() && clock > ZERO_TIME && Forward(config, clock, events)
    ensures Timed(Run(config, clock, events), config)
  {
    if events != [] {
      var prefix, event := events[..|events| - 1], events[|events| - 1];
      RunTimed(config, clock, prefix);
      RunKeeps(config, clock, prefix);
      var s := Run(config, clock, prefix);
      hide Timed, Inv, Step;
      if event.Act? && event.id in s.threads {
        StepTimed(s, config, event.id, event.choice);
      } else {
        OtherTimed(s, Apply(s, config, event), config);
      }
    } else {
      NothingTimed(config, clock);
    }
  }

  lemma NothingTimed(config: Config, clock: Time)
    ensures Timed(Boot(clock), config)
  {
  }

  // ----- when the promises hold, exactly

  /** The fetch in progress had ended a whole cooldown before the decision, though its flight was not yet closed. */
  predicate Late(config: Config, d: Decision) {
    d.fetchEnd.Some? && d.fetchEnd.value + config.cooldown <= d.decidedAt
  }

  /** Flight m was decided at least one cooldown after flight n ended. */
  predicate Apart(flights: seq<FlightLog>, config: Config, n: nat, m: nat)
    requires n < |flights| && m < |flights|
  {
    flights[n].endedAt + config.cooldown <= flights[m].decision.decidedAt
  }

  /** What every run gives of the decision that led flight m. */
  lemma Decided(config: Config, clock: Time, events: seq<Event>, m: nat)
    requires config.Valid() && clock > ZERO_TIME && Forward(config, clock, events)
    requires m < |Run(config, clock, events).flights|
    ensures var s := Run(config, clock, events); var d := s.flights[m].decision;
            && Ordered(s) && Timely(s.flights, config, d) && DecisionTimed(s, d) && d.observedAttempt == m
            && (forall n :: 0 <= n < m ==> s.flights[n].closed)
  {
    hide Run;
    RunKeeps(config, clock, events);
    RunThrottled(config, clock, events);
    RunTimed(config, clock, events);
  }

  /** A leader that decided while the previous flight ran is within its cooldown, unless it was late. */
  lemma OverlapIsApartExactly(config: Config, clock: Time, events: seq<Event>, m: nat)
    requires config.Valid() && clock > ZERO_TIME && Forward(config, clock, events)
    requires var s := Run(config, clock, events); 0 < m < |s.flights| && s.flights[m].decision.duringFlight
    ensures var s := Run(config, clock, events);
            Apart(s.flights, config, m - 1, m) <==> Late(config, s.flights[m].decision)
  {
    hide Run;
    Decided(config, clock, events, m);
  }

  /** Two reactive fetches are a cooldown apart exactly when the second was not decided during the first, or late. */
  lemma ReactiveFetchesAreSpacedExactly(config: Config, clock: Time, events: seq<Event>, n: nat, m: nat)
    requires config.Valid() && clock > ZERO_TIME && Forward(config, clock, events)
    requires var s := Run(config, clock, events);
             n < m < |s.flights| && s.flights[n].reasons.reactive && s.flights[m].decision.reason.Reactive?
    ensures var s := Run(config, clock, events); var d := s.flights[m].decision;
            Apart(s.flights, config, n, m) <==> (n == m - 1 && d.duringFlight ==> Late(config, d))
  {
    hide Run;
    var s := Run(config, clock, events);
    if n == m - 1 && s.flights[m].decision.duringFlight {
      OverlapIsApartExactly(config, clock, events, m);
    } else {
      ReactiveFetchesAreSpaced(config, clock, events, n, m);
    }
  }

  /** No fetch led for an unknown key or a bad signature succeeds strictly between flights n and m. */
  ghost predicate NoReactiveSuccessBetween(flights: seq<FlightLog>, n: nat, m: nat)
    requires m <= |flights|
  {
    forall k :: n < k < m && flights[k].Succeeded() ==> !flights[k].decision.reason.Reactive?
  }

  /** The next flight was decided while flight n was still fetching, or within a cooldown of that fetch. */
  predicate Jumps(flights: seq<FlightLog>, config: Config, n: nat) {
    n + 1 < |flights| &&
    var d := flights[n + 1].decision; !d.reason.Reactive? && d.duringFlight && !Late(config, d)
  }

  lemma {:induction false} LastSuccess(flights: seq<FlightLog>, n: nat, m: nat) returns (k: nat)
    requires m <= |flights| && !NoSuccessBetween(flights, n, m)
    ensures n < k < m && flights[k].Succeeded() && NoSuccessBetween(flights, k, m)
  {
    if flights[m - 1].Succeeded() {
      k := m - 1;
    } else {
      k := LastSuccess(flights, n, m - 1);
    }
  }

  /** After a failed proactive fetch every required or proactive fetch waits a cooldown, in any interleaving in
      which the next flight does not jump, unless a reactive fetch succeeds in between. */
  lemma {:induction false} HoldsOffUnlessJumped(config: Config, clock: Time, events: seq<Event>, n: nat, m: nat)
    requires config.Valid() && clock > ZERO_TIME && Forward(config, clock, events)
    requires var s := Run(config, clock, events);
             && n < m < |s.flights| && s.flights[n].FailedProactive() && !s.flights[m].decision.reason.Reactive?
             && NoReactiveSuccessBetween(s.flights, n, m) && !Jumps(s.flights, config, n)
    ensures Apart(Run(config, clock, events).flights, config, n, m)
    decreases m
  {
    hide Run;
    var s := Run(config, clock, events);
    var d := s.flights[m].decision;
    Decided(config, clock, events, m);
    if n == m - 1 && d.duringFlight {
      OverlapIsApartExactly(config, clock, events, m);
    } else if NoSuccessBetween(s.flights, n, Horizon(d)) {
      assert Spaced(s.flights, config, d, n);
    } else {
      var k := LastSuccess(s.flights, n, Horizon(d));
      HoldsOffUnlessJumped(config, clock, events, n, k);
    }
  }

  /** What the cooldown of a failed proactive fetch promises of the flights after it. */
  ghost predicate HeldOff(flights: seq<FlightLog>, config: Config, n: nat)
    requires n < |flights|
  {
    forall m ::
      n < m < |flights| && !flights[m].decision.reason.Reactive? && NoReactiveSuccessBetween(flights, n, m) ==>
      Apart(flights, config, n, m)
  }

  /** A failed proactive fetch holds off the required and proactive ones exactly when the next flight does not jump. */
  lemma FailedProactiveHoldsOffExactly(config: Config, clock: Time, events: seq<Event>, n: nat)
    requires config.Valid() && clock > ZERO_TIME && Forward(config, clock, events)
    requires var s := Run(config, clock, events); n < |s.flights| && s.flights[n].FailedProactive()
    ensures var s := Run(config, clock, events);
            HeldOff(s.flights, config, n) <==> !Jumps(s.flights, config, n)
  {
    hide Run;
    var s := Run(config, clock, events);
    if Jumps(s.flights, config, n) {
      OverlapIsApartExactly(config, clock, events, n + 1);
      assert !Apart(s.flights, config, n, n + 1);
    } else {
      forall m | n < m < |s.flights| && !s.flights[m].decision.reason.Reactive?
        && NoReactiveSuccessBetween(s.flights, n, m)
        ensures Apart(s.flights, config, n, m)
      {
        HoldsOffUnlessJumped(config, clock, events, n, m);
      }
    }
  }

  /** When calls do not overlap and the clock never steps back, a failed proactive fetch holds off every required
      or proactive fetch for a whole cooldown, unless a reactive fetch succeeds first. */
  lemma SerialFailedProactiveHoldsOff(config: Config, clock: Time, events: seq<Event>, n: nat, m: nat)
    requires config.Valid() && clock > ZERO_TIME && Serial(config, clock, events) && Forward(config, clock, events)
    requires var s := Run(config, clock, events);
             && n < m < |s.flights| && s.flights[n].FailedProactive() && !s.flights[m].decision.reason.Reactive?
             && (forall k :: n < k < m && s.flights[k].Succeeded() ==> !s.flights[k].decision.reason.Reactive?)
    ensures var s := Run(config, clock, events);
            s.flights[n].endedAt + config.cooldown <= s.flights[m].decision.decidedAt
  {
    SerialNeverDuring(config, clock, events);
    HoldsOffUnlessJumped(config, clock, events, n, m);
  }

  // ----- a jump really breaks the hold-off

  /** In this run flight 3 is led proactively within the cooldown of the failed proactive flight 2. */
  ghost predicate BreaksHoldOff(config: Config, events: seq<Event>) {
    && Forward(config, 1, events)
    && var s := Run(config, 1, events);
       && |s.flights| == 3 && s.flights[1].FailedProactive() && s.flights[2].decision.reason.Proactive?
       && !Apart(s.flights, config, 1, 2)
  }

  /** Thread 0 installs a set, and the clock advances until that set is due. */
  lemma DueRun(config: Config) returns (events: seq<Event>)
    requires config.Valid()
    ensures Forward(config, 1, events)
    ensures var s := Run(config, 1, events);
            && Warm(s.cache, config) && s.clock == s.cache.refreshAt && s.cache.flight.None? && s.cache.attempt == 1
            && |s.flights| == 1 && 1 !in s.threads && 2 !in s.threads
  {
    var before := FirstFlight(config);
    var tick := Tick(Run(config, 1, before).cache.refreshAt);
    events := before + [tick];
    RunOneMore(config, 1, before, tick);
  }

  /** Thread 1 leads a proactive fetch. */
  lemma ProactiveFlight(config: Config) returns (events: seq<Event>, decision: Decision)
    requires config.Valid()
    ensures Forward(config, 1, events) && decision.reason.Proactive?
    ensures var s := Run(config, 1, events);
            && Warm(s.cache, config) && s.clock == s.cache.refreshAt && s.cache.attempt == 2
            && s.cache.flight == Some(Flight(false, true, false, 0)) && |s.flights| == 2 && s.flights[1].leader == 1
            && 1 in s.threads && s.threads[1] == Thread(KnownKey(), 1, Fetching(FromResolve, decision, 2))
               && 2 !in s.threads
  {
    var before := DueRun(config);
    var s := Run(config, 1, before);
    events := ArrivesAndDecides(config, before, 1, KnownKey(), Proactive);
    decision := Decision(1, Proactive, s.clock, false, None, 1);
    BecomesLeader(Run(config, 1, events), config, 1, KnownKey(), decision);
    RunOneMore(config, 1, events, Act(1, Proceed));
    events := events + [Act(1, Proceed)];
  }

  lemma JumpingRun(config: Config) returns (events: seq<Event>)
    requires config.Valid()
    ensures BreaksHoldOff(config, events)
  {
    var before, first := ProactiveFlight(config);
    var s0 := Run(config, 1, before);
    events := ArrivesAndDecides(config, before, 2, KnownKey(), Proactive);
    var second := Decision(2, Proactive, s0.clock, true, None, 1);
    var s := Run(config, 1, events);
    var result := FetchFailed(SourceUnavailable);
    Closes(s, config, 1, KnownKey(), first, 2, result);
    FinishEffect(s.cache, config, s.clock, result);
    RunTwoMore(config, 1, events, Act(1, FetchEnds(result)), Act(1, Proceed));
    events := events + [Act(1, FetchEnds(result))] + [Act(1, Proceed)];
    var s1 := Run(config, 1, events);
    BecomesLeader(s1, config, 2, KnownKey(), second);
    RunOneMore(config, 1, events, Act(2, Proceed));
    events := events + [Act(2, Proceed)];
    assert Run(config, 1, events).flights[1] == s1.flights[1];
  }

  /** The hold-off does fail when a caller decides during the failing flight and leads right after it. */
  lemma JumpBreaksHoldOff(config: Config)
    requires config.Valid()
    ensures exists events :: BreaksHoldOff(config, events)
  {
    var events := JumpingRun(config);
    assert BreaksHoldOff(config, events);
  }
}
