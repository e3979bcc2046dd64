/** How the cooldown gates throttle fetches over every run of the Authenticate system. */
module RefreshThrottle {
  import opened Wrappers
  import opened KeyCache
  import opened Authenticate

  /** The flights that had closed when the caller decided. */
  function Horizon(decision: Decision): int {
    if decision.duringFlight then decision.observedAttempt - 1 else decision.observedAttempt
  }

  ghost predicate NoSuccessBetween(flights: seq<FlightLog>, n: int, m: int)
    requires 0 <= n && m <= |flights|
  {
    forall k :: n < k < m ==> !flights[k].Succeeded()
  }

  /** The decision respected the cooldown of flight n, one of those before the horizon. */
  ghost predicate Spaced(flights: seq<FlightLog>, config: Config, decision: Decision, n: nat)
    requires n < Horizon(decision) <= |flights|
  {
    && (decision.reason.Reactive? && flights[n].closed && flights[n].reasons.reactive ==>
          flights[n].endedAt + config.cooldown <= decision.decidedAt)
    && (!decision.reason.Reactive? && flights[n].FailedProactive()
        && NoSuccessBetween(flights, n, Horizon(decision)) ==>
          flights[n].endedAt + config.cooldown <= decision.decidedAt)
  }

  ghost predicate Timely(flights: seq<FlightLog>, config: Config, decision: Decision) {
    && Horizon(decision) <= |flights|
    && (forall n: nat :: n < Horizon(decision) ==> flights[n].closed && Spaced(flights, config, decision, n))
  }

  /** The gates hold off at least as long as the cooldowns that set them. */
  ghost predicate Gated(c: Cache, flights: seq<FlightLog>, config: Config) {
    && (forall n :: 0 <= n < |flights| && flights[n].closed && flights[n].reasons.reactive ==>
          flights[n].endedAt + config.cooldown <= c.nextReactive)
    && (forall n :: 0 <= n < |flights| && flights[n].FailedProactive() && NoSuccessBetween(flights, n, |flights|) ==>
          flights[n].endedAt + config.cooldown <= c.nextRequired
          && flights[n].endedAt + config.cooldown <= c.nextProactive)
  }

  ghost predicate ThreadTimely(s: System, config: Config, t: Thread) {
    && (t.pc.Entering? ==> Timely(s.flights, config, t.pc.decision))
    && (t.pc.Closing? ==> t.pc.now > ZERO_TIME)
  }

  ghost predicate Throttled(s: System, config: Config) {
    && Gated(s.cache, s.flights, config)
    && (forall id :: id in s.threads ==> ThreadTimely(s, config, s.threads[id]))
    && (forall m :: 0 <= m < |s.flights| ==> Timely(s.flights, config, s.flights[m].decision))
  }

  /** Gates never move back except when an install reopens the required and proactive ones. */
  ghost predicate GatesHold(c: Cache, c': Cache) {
    c.nextRequired <= c'.nextRequired && c.nextProactive <= c'.nextProactive && c.nextReactive <= c'.nextReactive
  }

  /** A verdict about closed flights survives any growth of the log. */
  lemma TimelyStays(flights: seq<FlightLog>, flights': seq<FlightLog>, config: Config, decision: Decision)
    requires Timely(flights, config, decision) && |flights| <= |flights'|
    requires forall n :: 0 <= n < |flights| && flights[n].closed ==> flights'[n] == flights[n]
    ensures Timely(flights', config, decision)
  {
    forall n: nat | n < Horizon(decision)
      ensures flights'[n].closed && Spaced(flights', config, decision, n)
    {
      assert flights[n].closed && Spaced(flights, config, decision, n);
      if NoSuccessBetween(flights', n, Horizon(decision)) {
        forall k | n < k < Horizon(decision)
          ensures !flights[k].Succeeded()
        {
          assert flights[k].closed && !flights'[k].Succeeded();
        }
      }
    }
  }

  /** A decision taken now is timely because it passed the gates. */
  lemma DecisionTimely(s: System, config: Config, decision: Decision)
    requires Logged(s) && Gated(s.cache, s.flights, config)
    requires decision.observedAttempt == s.cache.attempt && decision.duringFlight == s.cache.flight.Some?
    requires decision.observedAttempt == 0 || Gate(s.cache, decision.reason) <= decision.decidedAt
    ensures Timely(s.flights, config, decision)
  {
    forall n: nat | n < Horizon(decision)
      ensures s.flights[n].closed && Spaced(s.flights, config, decision, n)
    {
      if NoSuccessBetween(s.flights, n, Horizon(decision)) && s.flights[n].FailedProactive() {
        assert NoSuccessBetween(s.flights, n, |s.flights|);
      }
    }
  }

  lemma QuietThrottled(s: System, s': System, config: Config, id: nat)
    requires Throttled(s, config) && s'.flights == s.flights && GatesHold(s.cache, s'.cache)
    requires id in s'.threads && s'.threads == s.threads[id := s'.threads[id]]
    requires ThreadTimely(s', config, s'.threads[id])
    ensures Throttled(s', config)
  {
    forall other | other in s'.threads && other != id
      ensures ThreadTimely(s', config, s'.threads[other])
    {
      assert ThreadTimely(s, config, s.threads[other]);
    }
  }

  lemma LeadGated(s: System, s': System, config: Config)
    requires Gated(s.cache, s.flights, config) && GatesHold(s.cache, s'.cache)
    requires |s'.flights| == |s.flights| + 1 && s'.flights[..|s.flights|] == s.flights
    requires !s'.flights[|s.flights|].closed
    ensures Gated(s'.cache, s'.flights, config)
  {
    forall n | 0 <= n < |s'.flights| && s'.flights[n].FailedProactive() && NoSuccessBetween(s'.flights, n, |s'.flights|)
      ensures s'.flights[n].endedAt + config.cooldown <= s'.cache.nextRequired
      ensures s'.flights[n].endedAt + config.cooldown <= s'.cache.nextProactive
    {
      assert s.flights[n] == s'.flights[n];
      forall k | n < k < |s.flights|
        ensures !s.flights[k].Succeeded()
      {
        assert s.flights[k] == s'.flights[k];
      }
    }
    forall n | 0 <= n < |s'.flights| && s'.flights[n].closed && s'.flights[n].reasons.reactive
      ensures s'.flights[n].endedAt + config.cooldown <= s'.cache.nextReactive
    {
      assert s.flights[n] == s'.flights[n];
    }
  }

  lemma LeadThrottled(s: System, s': System, config: Config, id: nat, caller: Caller, decision: Decision)
    requires Throttled(s, config) && id in s.threads && s.threads[id].pc == Entering(caller, decision)
    requires Led(s, s', id, caller, decision) && GatesHold(s.cache, s'.cache)
    ensures Throttled(s', config)
  {
    assert ThreadTimely(s, config, s.threads[id]);
    LeadGated(s, s', config);
    forall other | other in s'.threads
      ensures ThreadTimely(s', config, s'.threads[other])
    {
      if other != id {
        assert ThreadTimely(s, config, s.threads[other]);
        if s.threads[other].pc.Entering? {
          TimelyStays(s.flights, s'.flights, config, s.threads[other].pc.decision);
        }
      }
    }
    forall m | 0 <= m < |s'.flights|
      ensures Timely(s'.flights, config, s'.flights[m].decision)
    {
      TimelyStays(s.flights, s'.flights, config, s'.flights[m].decision);
    }
  }

  lemma EnterThrottled(s: System, config: Config, id: nat, caller: Caller, decision: Decision)
    requires Inv(s) && Throttled(s, config)
    requires id in s.threads && s.threads[id].pc == Entering(caller, decision)
    ensures Throttled(StepEnter(s, config, id, caller, decision), config)
  {
    var s' := StepEnter(s, config, id, caller, decision);
    assert GatesHold(s.cache, s'.cache);
    if s.cache.flight.None? && s.cache.attempt == decision.observedAttempt {
      EnterLeads(s, config, id, caller, decision);
      hide StepEnter;
      LeadThrottled(s, s', config, id, caller, decision);
    } else {
      QuietThrottled(s, s', config, id);
    }
  }

  /** What closing a flight does to the gates. */
  lemma FinishGates(c: Cache, config: Config, now: Time, result: FetchResult)
    requires c.flight.Some? && now > ZERO_TIME
    ensures var c' := FinishFlight(c, config, now, result); var flight := c.flight.value;
            && c.nextReactive <= c'.nextReactive
            && (flight.reactive ==> now + config.cooldown <= c'.nextReactive)
            && (result.FetchFailed? ==> c.nextRequired <= c'.nextRequired && c.nextProactive <= c'.nextProactive)
            && (result.FetchFailed? && flight.proactive ==>
                  now + config.cooldown <= c'.nextRequired && now + config.cooldown <= c'.nextProactive)
  {
  }

  lemma CloseGated(s: System, s': System, config: Config, now: Time, result: FetchResult)
    requires Logged(s) && s.cache.flight.Some? && now > ZERO_TIME
    requires Gated(s.cache, s.flights, config)
    requires s'.cache == FinishFlight(s.cache, config, now, result)
    requires |s'.flights| == |s.flights|
    requires forall n :: 0 <= n < |s.flights| - 1 ==> s'.flights[n] == s.flights[n]
    requires var log := s'.flights[|s.flights| - 1];
             && log.closed && log.endedAt == now && log.reasons == s.cache.flight.value
             && (log.error.Some? <==> result.FetchFailed?)
    ensures Gated(s'.cache, s'.flights, config)
  {
    FinishGates(s.cache, config, now, result);
    var last := |s.flights| - 1;
    forall n | 0 <= n < |s'.flights| && s'.flights[n].FailedProactive() && NoSuccessBetween(s'.flights, n, |s'.flights|)
      ensures s'.flights[n].endedAt + config.cooldown <= s'.cache.nextRequired
      ensures s'.flights[n].endedAt + config.cooldown <= s'.cache.nextProactive
    {
      if n < last {
        assert !s'.flights[last].Succeeded();
        forall k | n < k < |s.flights|
          ensures !s.flights[k].Succeeded()
        {
          assert k < last ==> s'.flights[k] == s.flights[k];
        }
      }
    }
  }

  lemma CloseThrottled(s: System, config: Config, id: nat, caller: Caller, decision: Decision, number: nat,
                       result: FetchResult, now: Time)
    requires Inv(s) && Throttled(s, config)
    requires id in s.threads && s.threads[id].pc == Closing(caller, decision, number, result, now)
    ensures Throttled(StepClose(s, config, id, caller, decision, number, result, now), config)
  {
    var s' := StepClose(s, config, id, caller, decision, number, result, now);
    assert ThreadOk(s, id, s.threads[id]) && ThreadTimely(s, config, s.threads[id]);
    CloseGated(s, s', config, now, result);
    forall other | other in s'.threads
      ensures ThreadTimely(s', config, s'.threads[other])
    {
      if other != id {
        assert ThreadTimely(s, config, s.threads[other]);
        if s.threads[other].pc.Entering? {
          TimelyStays(s.flights, s'.flights, config, s.threads[other].pc.decision);
        }
      }
    }
    forall m | 0 <= m < |s'.flights|
      ensures Timely(s'.flights, config, s'.flights[m].decision)
    {
      assert s'.flights[m].decision == s.flights[m].decision;
      TimelyStays(s.flights, s'.flights, config, s.flights[m].decision);
    }
  }

  lemma ResolveTimely(s: System, config: Config, id: nat, now: Time)
    requires Logged(s) && Throttled(s, config) && id in s.threads && s.threads[id].pc == ResolveReady(now)
    ensures var s' := StepResolve(s, id, now);
            s'.cache == s.cache && s'.flights == s.flights && id in s'.threads
            && s'.threads == s.threads[id := s'.threads[id]] && ThreadTimely(s', config, s'.threads[id])
  {
    if Look(s.cache, now, s.threads[id].ref).NeedsRefresh? {
      DecisionTimely(s, config, StepResolve(s, id, now).threads[id].pc.decision);
    }
  }

  lemma RetryTimely(s: System, config: Config, id: nat, previous: CachedKey, now: Time)
    requires Logged(s) && Throttled(s, config) && id in s.threads && s.threads[id].pc == RetryReady(previous, now)
    ensures var s' := StepRetry(s, config, id, previous, now);
            GatesHold(s.cache, s'.cache) && s'.flights == s.flights && id in s'.threads
            && s'.threads == s.threads[id := s'.threads[id]] && ThreadTimely(s', config, s'.threads[id])
  {
    if LookAgain(s.cache, config, now, s.threads[id].ref, previous).1.RetryRefresh? {
      DecisionTimely(s, config, StepRetry(s, config, id, previous, now).threads[id].pc.decision);
    }
  }

  lemma RereadTimely(s: System, config: Config, id: nat, caller: Caller, decision: Decision, succeeded: bool, now: Time)
    requires id in s.threads && s.threads[id].pc == Rereading(caller, decision, succeeded, now)
    ensures var s' := StepReread(s, id, caller, succeeded, now);
            s'.cache == s.cache && s'.flights == s.flights && id in s'.threads
            && s'.threads == s.threads[id := s'.threads[id]] && ThreadTimely(s', config, s'.threads[id])
  {
  }

  lemma LocalTimely(s: System, config: Config, id: nat, choice: Choice)
    requires id in s.threads && !HasSection(s.threads[id].pc) && s.clock > ZERO_TIME
    ensures var s' := StepLocal(s, config, id, choice);
            GatesHold(s.cache, s'.cache) && s'.flights == s.flights && id in s'.threads
            && s'.threads == s.threads[id := s'.threads[id]] && ThreadTimely(s', config, s'.threads[id])
  {
  }

  lemma StepThrottled(s: System, config: Config, id: nat, choice: Choice)
    requires Inv(s) && Throttled(s, config) && id in s.threads
    ensures Throttled(Step(s, config, id, choice), config)
  {
    hide StepEnter, StepClose, StepResolve, StepReread, StepRetry;
    var s' := Step(s, config, id, choice);
    var pc := s.threads[id].pc;
    if pc.Entering? {
      var Entering(caller, decision) := pc;
      EnterThrottled(s, config, id, caller, decision);
    } else if pc.Closing? {
      var Closing(caller, decision, number, result, now) := pc;
      CloseThrottled(s, config, id, caller, decision, number, result, now);
    } else if pc.ResolveReady? {
      var ResolveReady(now) := pc;
      ResolveTimely(s, config, id, now);
      QuietThrottled(s, s', config, id);
    } else if pc.RetryReady? {
      var RetryReady(previous, now) := pc;
      RetryTimely(s, config, id, previous, now);
      QuietThrottled(s, s', config, id);
    } else if pc.Rereading? {
      var Rereading(caller, decision, succeeded, now) := pc;
      RereadTimely(s, config, id, caller, decision, succeeded, now);
      QuietThrottled(s, s', config, id);
    } else {
      LocalTimely(s, config, id, choice);
      QuietThrottled(s, s', config, id);
    }
  }

  lemma {:induction false} RunThrottled(config: Config, clock: Time, events: seq<Event>)
    requires clock > ZERO_TIME
    ensures Throttled(Run(config, clock, events), config)
  {
    if events != [] {
      var s := Run(config, clock, events[..|events| - 1]);
      var event := events[|events| - 1];
      RunThrottled(config, clock, events[..|events| - 1]);
      RunKeeps(config, clock, events[..|events| - 1]);
      var s' := Apply(s, config, event);
      if event.Act? && event.id in s.threads {
        StepThrottled(s, config, event.id, event.choice);
      } else {
        forall id | id in s'.threads
          ensures ThreadTimely(s', config, s'.threads[id])
        {
          assert id in s.threads ==> ThreadTimely(s, config, s.threads[id]);
        }
      }
    }
  }

  /** A fetch led for an unknown key or a bad signature was decided at least one cooldown after the end of
      every earlier flight with that reason, except a flight that was still running at the decision. */
  lemma ReactiveFetchesAreSpaced(config: Config, clock: Time, events: seq<Event>, n: nat, m: nat)
    requires clock > ZERO_TIME
    requires var s := Run(config, clock, events);
             && n < m < |s.flights| && s.flights[n].reasons.reactive && s.flights[m].decision.reason.Reactive?
             && !(n == m - 1 && s.flights[m].decision.duringFlight)
    ensures var s := Run(config, clock, events);
            s.flights[n].endedAt + config.cooldown <= s.flights[m].decision.decidedAt
  {
    RunKeeps(config, clock, events);
    RunThrottled(config, clock, events);
    var s := Run(config, clock, events);
    assert Timely(s.flights, config, s.flights[m].decision);
    assert Spaced(s.flights, config, s.flights[m].decision, n);
  }

  /** After a failed proactive fetch and until some fetch succeeds, no required or proactive fetch is
      decided within the cooldown, except by a caller that decided while that fetch was running. */
  lemma FailedProactiveFetchHoldsOff(config: Config, clock: Time, events: seq<Event>, n: nat, m: nat)
    requires clock > ZERO_TIME
    requires var s := Run(config, clock, events);
             && n < m < |s.flights| && s.flights[n].FailedProactive() && !s.flights[m].decision.reason.Reactive?
             && NoSuccessBetween(s.flights, n, m) && !(n == m - 1 && s.flights[m].decision.duringFlight)
    ensures var s := Run(config, clock, events);
            s.flights[n].endedAt + config.cooldown <= s.flights[m].decision.decidedAt
  {
    RunKeeps(config, clock, events);
    RunThrottled(config, clock, events);
    var s := Run(config, clock, events);
    assert Timely(s.flights, config, s.flights[m].decision);
    assert Spaced(s.flights, config, s.flights[m].decision, n);
  }

  // ----- an overlap really breaks the spacing

  function KnownKey(): KeyReference { KeyReference("known", "RS256") }
  function Unknown(): KeyReference { KeyReference("unknown", "RS256") }

  lemma RunOneMore(config: Config, clock: Time, events: seq<Event>, event: Event)
    ensures Run(config, clock, events + [event]) == Apply(Run(config, clock, events), config, event)
    ensures Forward(config, clock, events) && (event.Tick? ==> Run(config, clock, events).clock <= event.now) ==>
              Forward(config, clock, events + [event])
  {
    assert (events + [event])[..|events|] == events;
  }

  lemma RunTwoMore(config: Config, clock: Time, events: seq<Event>, first: Event, second: Event)
    ensures var s := Apply(Run(config, clock, events), config, first);
            Run(config, clock, events + [first] + [second]) == Apply(s, config, second)
    ensures Forward(config, clock, events) && !first.Tick? && !second.Tick? ==>
              Forward(config, clock, events + [first] + [second])
  {
    RunOneMore(config, clock, events, first);
    RunOneMore(config, clock, events + [first], second);
  }

  /** The clock never steps back during the run. */
  ghost predicate Forward(config: Config, clock: Time, events: seq<Event>)
    decreases |events|
  {
    events == [] ||
    var prefix, event := events[..|events| - 1], events[|events| - 1];
    Forward(config, clock, prefix) && (event.Tick? ==> Run(config, clock, prefix).clock <= event.now)
  }

  function With(s: System, id: nat, t: Thread): System {
    s.(threads := s.threads[id := t])
  }

  /** A new call arrives and reads the clock. */
  lemma Arrives(s: System, config: Config, id: nat, ref: KeyReference)
    requires id !in s.threads
    ensures Apply(Apply(s, config, Spawn(id, ref)), config, Act(id, Proceed)) ==
            With(s, id, Thread(ref, 0, ResolveReady(s.clock)))
  {
    var s1 := Apply(s, config, Spawn(id, ref));
    assert s1 == With(s, id, Thread(ref, 0, Start));
    var s2 := Apply(s1, config, Act(id, Proceed));
    assert s2.threads == s.threads[id := Thread(ref, 0, ResolveReady(s.clock))];
  }

  /** It finds that it must refresh. */
  lemma Decides(s: System, config: Config, id: nat, ref: KeyReference, now: Time, reason: Reason)
    requires id !in s.threads && Look(s.cache, now, ref) == NeedsRefresh(s.cache.attempt, reason)
    requires FetchEnd(With(s, id, Thread(ref, 0, ResolveReady(now)))) == None
    ensures var decision := Decision(s.cache.attempt, reason, now, s.cache.flight.Some?, None, s.cache.generation);
            Apply(With(s, id, Thread(ref, 0, ResolveReady(now))), config, Act(id, Proceed))
            == With(s, id, Thread(ref, 1, Entering(FromResolve, decision)))
  {
    var decision := Decision(s.cache.attempt, reason, now, s.cache.flight.Some?, None, s.cache.generation);
    var s' := Apply(With(s, id, Thread(ref, 0, ResolveReady(now))), config, Act(id, Proceed));
    assert s'.threads == s.threads[id := Thread(ref, 1, Entering(FromResolve, decision))];
  }

  /** It becomes the leader of a new flight. */
  lemma BecomesLeader(s: System, config: Config, id: nat, ref: KeyReference, decision: Decision)
    requires id in s.threads && s.threads[id] == Thread(ref, 1, Entering(FromResolve, decision))
    requires s.cache.flight.None? && decision.observedAttempt == s.cache.attempt
    ensures var s' := Apply(s, config, Act(id, Proceed));
            && s'.clock == s.clock && s'.installs == s.installs
            && s'.cache == s.cache.(flight := Some(Flight(false, false, false, 0).AddReason(decision.reason)),
                                    attempt := s.cache.attempt + 1)
            && |s'.flights| == |s.flights| + 1 && s'.flights[..|s.flights|] == s.flights
            && s'.flights[|s.flights|].decision == decision && s'.flights[|s.flights|].leader == id
            && s'.threads == s.threads[id := Thread(ref, 1, Fetching(FromResolve, decision, s.cache.attempt + 1))]
  {
  }

  /** Its fetch ends and it closes the flight. */
  lemma Closes(s: System, config: Config, id: nat, ref: KeyReference, decision: Decision, number: nat,
               result: FetchResult)
    requires id in s.threads && s.threads[id] == Thread(ref, 1, Fetching(FromResolve, decision, number))
    requires s.cache.flight.Some? && 0 < number == |s.flights| && (result.Fetched? ==> |result.keys| > 0)
    ensures var s' := Apply(Apply(s, config, Act(id, FetchEnds(result))), config, Act(id, Proceed));
            && s'.clock == s.clock && s'.cache == FinishFlight(s.cache, config, s.clock, result)
            && |s'.flights| == |s.flights| && s'.flights[..number - 1] == s.flights[..number - 1]
            && s'.threads == s.threads[id := Thread(ref, 1, Returned(FromResolve, decision, result.Fetched?))]
            && var log := s'.flights[number - 1];
               && log.closed && log.reasons == s.cache.flight.value && log.endedAt == s.clock
               && (log.error.None? <==> result.Fetched?)
  {
    var s1 := Apply(s, config, Act(id, FetchEnds(result)));
    assert s1 == With(s, id, Thread(ref, 1, Closing(FromResolve, decision, number, result, s.clock)));
    var s2 := Apply(s1, config, Act(id, Proceed));
    assert s2.threads == s.threads[id := Thread(ref, 1, Returned(FromResolve, decision, result.Fetched?))];
  }

  const FIRST := Decision(0, Required, 1, false, None, 0)
  const SECOND := Decision(1, Reactive, 1, false, None, 1)
  const THIRD := Decision(2, Reactive, 1, true, None, 1)

  /** After the first flight: the cache holds one key, and both gates that matter are open. */
  ghost predicate Warm(c: Cache, config: Config) {
    && c.keys == map[KnownKey() := 7] && c.generation == 1
    && c.freshUntil == 1 + config.freshness && c.refreshAt == 1 + config.freshness - config.refreshAhead
    && c.nextProactive == 0 && c.nextReactive == 0
  }

  /** Thread id arrives, decides to refresh, and is about to enter. */
  lemma ArrivesAndDecides(config: Config, before: seq<Event>, id: nat, ref: KeyReference, reason: Reason)
    returns (events: seq<Event>)
    requires var s := Run(config, 1, before);
             && id !in s.threads && Look(s.cache, s.clock, ref) == NeedsRefresh(s.cache.attempt, reason)
             && FetchEnd(With(s, id, Thread(ref, 0, ResolveReady(s.clock)))) == None
    requires Forward(config, 1, before)
    ensures Forward(config, 1, events)
    ensures var s := Run(config, 1, before);
            var decision := Decision(s.cache.attempt, reason, s.clock, s.cache.flight.Some?, None, s.cache.generation);
            Run(config, 1, events) == With(s, id, Thread(ref, 1, Entering(FromResolve, decision)))
  {
    var s := Run(config, 1, before);
    events := before + [Spawn(id, ref)] + [Act(id, Proceed)];
    RunTwoMore(config, 1, before, Spawn(id, ref), Act(id, Proceed));
    Arrives(s, config, id, ref);
    RunOneMore(config, 1, events, Act(id, Proceed));
    Decides(s, config, id, ref, s.clock, reason);
    events := events + [Act(id, Proceed)];
  }

  /** Thread 0 installs a set. */
  lemma FirstFlight(config: Config) returns (events: seq<Event>)
    ensures Forward(config, 1, events)
    ensures var s := Run(config, 1, events);
            && s.clock == 1 && Warm(s.cache, config) && s.cache.flight.None? && s.cache.attempt == 1
            && |s.flights| == 1 && 1 !in s.threads && 2 !in s.threads
  {
    events := ArrivesAndDecides(config, [], 0, KnownKey(), Required);
    BecomesLeader(Run(config, 1, events), config, 0, KnownKey(), FIRST);
    RunOneMore(config, 1, events, Act(0, Proceed));
    events := events + [Act(0, Proceed)];
    var result := Fetched(map[KnownKey() := 7]);
    var s := Run(config, 1, events);
    Closes(s, config, 0, KnownKey(), FIRST, 1, result);
    FinishEffect(s.cache, config, 1, result);
    RunTwoMore(config, 1, events, Act(0, FetchEnds(result)), Act(0, Proceed));
    events := events + [Act(0, FetchEnds(result))] + [Act(0, Proceed)];
  }

  /** Thread 1 leads a reactive fetch. */
  lemma SecondFlight(config: Config) returns (events: seq<Event>)
    requires config.Valid()
    ensures Forward(config, 1, events)
    ensures var s := Run(config, 1, events);
            && s.clock == 1 && Warm(s.cache, config) && s.cache.attempt == 2
            && s.cache.flight == Some(Flight(false, false, true, 0)) && |s.flights| == 2 && s.flights[1].leader == 1
            && 1 in s.threads && s.threads[1] == Thread(Unknown(), 1, Fetching(FromResolve, SECOND, 2))
               && 2 !in s.threads
  {
    var before := FirstFlight(config);
    var s := Run(config, 1, before);
    events := ArrivesAndDecides(config, before, 1, Unknown(), Reactive);
    BecomesLeader(Run(config, 1, events), config, 1, Unknown(), SECOND);
    RunOneMore(config, 1, events, Act(1, Proceed));
    events := events + [Act(1, Proceed)];
  }

  /** In this run flight 3 is led for an unknown key within the cooldown of the reactive flight 2. */
  ghost predicate BreaksSpacing(config: Config, events: seq<Event>) {
    Forward(config, 1, events) &&
    var s := Run(config, 1, events);
    && |s.flights| == 3 && s.flights[1].reasons.reactive && s.flights[2].decision.reason.Reactive?
    && s.flights[2].decision.decidedAt < s.flights[1].endedAt + config.cooldown
  }

  /** The spacing does fail when a caller decides during the flight and leads right after it. */
  lemma OverlapBreaksSpacing(config: Config)
    requires config.Valid()
    ensures exists events :: BreaksSpacing(config, events)
  {
    var events := OverlappingRun(config);
    assert BreaksSpacing(config, events);
  }

  lemma OverlappingRun(config: Config) returns (events: seq<Event>)
    requires config.Valid()
    ensures BreaksSpacing(config, events)
  {
    var before := SecondFlight(config);
    events := ArrivesAndDecides(config, before, 2, Unknown(), Reactive);
    var s := Run(config, 1, events);
    var result := FetchFailed(SourceUnavailable);
    Closes(s, config, 1, Unknown(), SECOND, 2, result);
    FinishEffect(s.cache, config, 1, result);
    RunTwoMore(config, 1, events, Act(1, FetchEnds(result)), Act(1, Proceed));
    events := events + [Act(1, FetchEnds(result))] + [Act(1, Proceed)];
    var s1 := Run(config, 1, events);
    BecomesLeader(s1, config, 2, Unknown(), THIRD);
    RunOneMore(config, 1, events, Act(2, Proceed));
    events := events + [Act(2, Proceed)];
    assert Run(config, 1, events).flights[1] == s1.flights[1];
  }

  // ----- calls that do not overlap

  /** No thread acts while another call is under way. */
  ghost predicate Serial(config: Config, clock: Time, events: seq<Event>)
    decreases |events|
  {
    events == [] ||
    var prefix, event := events[..|events| - 1], events[|events| - 1];
    && Serial(config, clock, prefix)
    && (event.Act? ==>
          forall id | id in Run(config, clock, prefix).threads && id != event.id ::
            var pc := Run(config, clock, prefix).threads[id].pc; pc.Start? || pc.Done?)
  }

  /** A running flight has its leader at work. */
  ghost predicate Manned(s: System) {
    s.cache.flight.Some? && |s.flights| > 0 ==>
      var leader := s.flights[|s.flights| - 1].leader; leader in s.threads && InFlight(s.threads[leader].pc)
  }

  ghost predicate NeverDuring(s: System) {
    && (forall n :: 0 <= n < |s.flights| ==> !s.flights[n].decision.duringFlight)
    && (forall id :: id in s.threads && s.threads[id].pc.Entering? ==> !s.threads[id].pc.decision.duringFlight)
  }

  lemma QuietSerial(s: System, s': System, id: nat)
    requires Logged(s) && Manned(s) && NeverDuring(s) && id in s.threads
    requires Quiet(s, s', id)
    requires InFlight(s.threads[id].pc) ==> InFlight(s'.threads[id].pc)
    requires s'.threads[id].pc.Entering? ==> !s'.threads[id].pc.decision.duringFlight
    ensures Manned(s') && NeverDuring(s')
  {
  }

  lemma EnterSerial(s: System, config: Config, id: nat, caller: Caller, decision: Decision)
    requires Logged(s) && Manned(s) && NeverDuring(s)
    requires id in s.threads && s.threads[id].pc == Entering(caller, decision)
    ensures var s' := StepEnter(s, config, id, caller, decision); Manned(s') && NeverDuring(s')
  {
  }

  lemma CloseSerial(s: System, config: Config, id: nat, caller: Caller, decision: Decision, number: nat,
                    result: FetchResult, now: Time)
    requires Logged(s) && NeverDuring(s)
    requires id in s.threads && s.threads[id].pc == Closing(caller, decision, number, result, now)
    requires s.cache.flight.Some? && number == |s.flights| > 0
    ensures var s' := StepClose(s, config, id, caller, decision, number, result, now); Manned(s') && NeverDuring(s')
  {
    FinishEffect(s.cache, config, now, result);
  }

  /** A thread outside the entry and closing sections keeps leading, and notes a running flight. */
  ghost predicate Notes(s: System, s': System, id: nat)
    requires id in s.threads && id in s'.threads
  {
    && (InFlight(s.threads[id].pc) ==> InFlight(s'.threads[id].pc))
    && (s'.threads[id].pc.Entering? ==> s'.threads[id].pc.decision.duringFlight == s.cache.flight.Some?)
  }

  lemma ResolveNotes(s: System, id: nat, now: Time)
    requires id in s.threads && s.threads[id].pc == ResolveReady(now)
    ensures Notes(s, StepResolve(s, id, now), id)
  {
  }

  lemma RereadNotes(s: System, id: nat, caller: Caller, decision: Decision, succeeded: bool, now: Time)
    requires id in s.threads && s.threads[id].pc == Rereading(caller, decision, succeeded, now)
    ensures Notes(s, StepReread(s, id, caller, succeeded, now), id)
  {
  }

  lemma RetryNotes(s: System, config: Config, id: nat, previous: CachedKey, now: Time)
    requires id in s.threads && s.threads[id].pc == RetryReady(previous, now)
    ensures Notes(s, StepRetry(s, config, id, previous, now), id)
  {
  }

  lemma LocalNotes(s: System, config: Config, id: nat, choice: Choice)
    requires id in s.threads && !HasSection(s.threads[id].pc)
    ensures Notes(s, StepLocal(s, config, id, choice), id)
  {
  }

  lemma QuietNotes(s: System, config: Config, id: nat, choice: Choice)
    requires Inv(s) && id in s.threads && !s.threads[id].pc.Entering? && !s.threads[id].pc.Closing?
    ensures var s' := Step(s, config, id, choice); Quiet(s, s', id) && Notes(s, s', id)
  {
    assert ThreadOk(s, id, s.threads[id]);
    hide StepResolve, StepReread, StepRetry, StepLocal, Quiet, Notes, Logged, Counted, ThreadOk;
    var pc := s.threads[id].pc;
    if pc.ResolveReady? {
      var ResolveReady(now) := pc;
      ResolveStep(s, id, now);
      ResolveNotes(s, id, now);
    } else if pc.Rereading? {
      var Rereading(caller, decision, succeeded, now) := pc;
      RereadStep(s, id, caller, decision, succeeded, now);
      RereadNotes(s, id, caller, decision, succeeded, now);
    } else if pc.RetryReady? {
      var RetryReady(previous, now) := pc;
      RetryStep(s, config, id, previous, now);
      RetryNotes(s, config, id, previous, now);
    } else {
      LocalStep(s, config, id, choice);
      LocalNotes(s, config, id, choice);
    }
  }

  /** With the other calls at rest, a running flight is led by the acting one. */
  lemma ActorLeads(s: System, id: nat)
    requires Logged(s) && Manned(s) && s.cache.flight.Some?
    requires forall other | other in s.threads && other != id :: s.threads[other].pc.Start? || s.threads[other].pc.Done?
    ensures id in s.threads && InFlight(s.threads[id].pc)
  {
  }

  lemma CloserLeads(s: System, id: nat)
    requires Inv(s) && id in s.threads && s.threads[id].pc.Closing?
    ensures s.cache.flight.Some? && s.threads[id].pc.number == |s.flights| > 0
  {
    assert ThreadOk(s, id, s.threads[id]);
  }

  /** While no other call is under way, the acting thread decides only with no flight running. */
  lemma SerialStep(s: System, config: Config, id: nat, choice: Choice)
    requires Inv(s) && Manned(s) && NeverDuring(s) && id in s.threads
    requires forall other | other in s.threads && other != id :: s.threads[other].pc.Start? || s.threads[other].pc.Done?
    ensures var s' := Step(s, config, id, choice); Manned(s') && NeverDuring(s')
  {
    if s.cache.flight.Some? { ActorLeads(s, id); }
    hide StepEnter, StepClose, StepResolve, StepReread, StepRetry, StepLocal, Logged, Counted, ThreadOk, Manned,
         NeverDuring, Quiet;
    var pc := s.threads[id].pc;
    if pc.Entering? {
      var Entering(caller, decision) := pc;
      EnterSerial(s, config, id, caller, decision);
    } else if pc.Closing? {
      var Closing(caller, decision, number, result, now) := pc;
      CloserLeads(s, id);
      CloseSerial(s, config, id, caller, decision, number, result, now);
    } else {
      QuietNotes(s, config, id, choice);
      QuietSerial(s, Step(s, config, id, choice), id);
    }
  }

  lemma RestSerial(s: System, config: Config, event: Event)
    requires Manned(s) && NeverDuring(s) && (event.Act? ==> event.id !in s.threads)
    ensures var s' := Apply(s, config, event); Manned(s') && NeverDuring(s')
  {
    hide Step;
  }

  lemma {:induction false} SerialNeverDuring(config: Config, clock: Time, events: seq<Event>)
    requires clock > ZERO_TIME && Serial(config, clock, events)
    ensures Manned(Run(config, clock, events)) && NeverDuring(Run(config, clock, events))
  {
    if events != [] {
      var prefix, event := events[..|events| - 1], events[|events| - 1];
      SerialNeverDuring(config, clock, prefix);
      RunKeeps(config, clock, prefix);
      var s := Run(config, clock, prefix);
      hide Step, Inv, Manned, NeverDuring;
      if event.Act? && event.id in s.threads {
        SerialStep(s, config, event.id, event.choice);
      } else {
        RestSerial(s, config, event);
      }
    }
  }

  /** When calls do not overlap, reactive fetches are at least one cooldown apart. */
  lemma SerialReactiveFetchesAreSpaced(config: Config, clock: Time, events: seq<Event>, n: nat, m: nat)
    requires clock > ZERO_TIME && Serial(config, clock, events)
    requires var s := Run(config, clock, events);
             n < m < |s.flights| && s.flights[n].reasons.reactive && s.flights[m].decision.reason.Reactive?
    ensures var s := Run(config, clock, events);
            s.flights[n].endedAt + config.cooldown <= s.flights[m].decision.decidedAt
  {
    SerialNeverDuring(config, clock, events);
    ReactiveFetchesAreSpaced(config, clock, events, n, m);
  }

  /** When calls do not overlap, a failed proactive fetch holds off required and proactive ones for a
      whole cooldown, unless a fetch succeeds first. */
  lemma SerialHoldOffUntilSuccess(config: Config, clock: Time, events: seq<Event>, n: nat, m: nat)
    requires clock > ZERO_TIME && Serial(config, clock, events)
    requires var s := Run(config, clock, events);
             && n < m < |s.flights| && s.flights[n].FailedProactive() && !s.flights[m].decision.reason.Reactive?
             && NoSuccessBetween(s.flights, n, m)
    ensures var s := Run(config, clock, events);
            s.flights[n].endedAt + config.cooldown <= s.flights[m].decision.decidedAt
  {
    SerialNeverDuring(config, clock, events);
    FailedProactiveFetchHoldsOff(config, clock, events, n, m);
  }

  // ----- gates never run ahead

  ghost predicate GatesBounded(c: Cache, config: Config) {
    && c.nextRequired <= c.lastAttemptAt + config.cooldown
    && c.nextProactive <= c.lastAttemptAt + config.cooldown
    && c.nextReactive <= c.lastAttemptAt + config.cooldown
  }

  /** A remembered attempt time lies in the past of the cache. */
  ghost predicate Past(c: Cache, found: CachedKey) {
    found.refreshAttempted ==> found.refreshAttemptedAt <= c.lastAttemptAt
  }

  ghost predicate ThreadPast(s: System, t: Thread) {
    match t.pc
    case Closing(_, _, _, _, now) => s.cache.lastAttemptAt <= now <= s.clock
    case HaveKey(found, _) => Past(s.cache, found)
    case RetryStart(previous) => Past(s.cache, previous)
    case RetryReady(previous, _) => Past(s.cache, previous)
    case _ => true
  }

  ghost predicate Bounded(s: System, config: Config) {
    && 0 <= s.cache.lastAttemptAt <= s.clock
    && GatesBounded(s.cache, config)
    && (forall id :: id in s.threads ==> ThreadPast(s, s.threads[id]))
  }

  lemma CooldownBounded(c: Cache, config: Config, reason: Reason, attemptedAt: Time)
    requires GatesBounded(c, config) && attemptedAt <= c.lastAttemptAt
    ensures GatesBounded(RecordCooldown(c, config, reason, attemptedAt), config)
  {
  }

  lemma FinishBounded(c: Cache, config: Config, now: Time, result: FetchResult)
    requires config.Valid() && c.flight.Some? && GatesBounded(c, config) && 0 <= c.lastAttemptAt <= now
    ensures GatesBounded(FinishFlight(c, config, now, result), config)
  {
  }

  /** Any section that leaves the last attempt alone, and one that closes a flight later than it. */
  lemma MoveBounded(s: System, s': System, config: Config, id: nat)
    requires Inv(s) && Bounded(s, config) && id in s.threads
    requires id in s'.threads && s'.threads == s.threads[id := s'.threads[id]] && s'.clock == s.clock
    requires GatesBounded(s'.cache, config) && s.cache.lastAttemptAt <= s'.cache.lastAttemptAt <= s.clock
    requires ThreadPast(s', s'.threads[id])
    requires s'.cache.lastAttemptAt == s.cache.lastAttemptAt || InFlight(s.threads[id].pc)
    ensures Bounded(s', config)
  {
    forall other | other in s'.threads && other != id
      ensures ThreadPast(s', s'.threads[other])
    {
      assert ThreadPast(s, s.threads[other]);
      if InFlight(s.threads[id].pc) && InFlight(s.threads[other].pc) {
        SoleFlight(s, id, other);
      }
    }
  }

  lemma LocalBounded(s: System, config: Config, id: nat, choice: Choice)
    requires Inv(s) && Bounded(s, config) && id in s.threads && !HasSection(s.threads[id].pc)
    ensures Bounded(StepLocal(s, config, id, choice), config)
  {
    var s' := StepLocal(s, config, id, choice);
    CooldownBounded(s.cache, config, Reactive, s.cache.lastAttemptAt);
    assert ThreadPast(s, s.threads[id]);
    MoveBounded(s, s', config, id);
  }

  lemma EnterBounded(s: System, config: Config, id: nat, caller: Caller, decision: Decision)
    requires Inv(s) && Bounded(s, config) && id in s.threads && s.threads[id].pc == Entering(caller, decision)
    ensures Bounded(StepEnter(s, config, id, caller, decision), config)
  {
    var s' := StepEnter(s, config, id, caller, decision);
    assert GatesBounded(SettleLate(s.cache, config, decision.reason), config);
    assert SettleLate(s.cache, config, decision.reason).lastAttemptAt == s.cache.lastAttemptAt;
    MoveBounded(s, s', config, id);
  }

  lemma CloseBounded(s: System, config: Config, id: nat, caller: Caller, decision: Decision, number: nat,
                     result: FetchResult, now: Time)
    requires config.Valid() && Inv(s) && Bounded(s, config)
    requires id in s.threads && s.threads[id].pc == Closing(caller, decision, number, result, now)
    ensures Bounded(StepClose(s, config, id, caller, decision, number, result, now), config)
  {
    assert ThreadOk(s, id, s.threads[id]) && ThreadPast(s, s.threads[id]);
    FinishBounded(s.cache, config, now, result);
    FinishEffect(s.cache, config, now, result);
    MoveBounded(s, StepClose(s, config, id, caller, decision, number, result, now), config, id);
  }

  lemma LookAgainBounded(c: Cache, config: Config, now: Time, ref: KeyReference, previous: CachedKey)
    requires GatesBounded(c, config) && Past(c, previous)
    ensures var (c', retry) := LookAgain(c, config, now, ref, previous);
            && GatesBounded(c', config) && c'.lastAttemptAt == c.lastAttemptAt
            && (retry.RetryWith? ==> !retry.found.refreshAttempted)
  {
  }

  lemma RetryBounded(s: System, config: Config, id: nat, previous: CachedKey, now: Time)
    requires Inv(s) && Bounded(s, config) && id in s.threads && s.threads[id].pc == RetryReady(previous, now)
    ensures Bounded(StepRetry(s, config, id, previous, now), config)
  {
    assert ThreadPast(s, s.threads[id]);
    LookAgainBounded(s.cache, config, now, s.threads[id].ref, previous);
    hide LookAgain, GatesBounded, Inv;
    MoveBounded(s, StepRetry(s, config, id, previous, now), config, id);
  }

  lemma ReadBounded(s: System, config: Config, id: nat, choice: Choice)
    requires Inv(s) && Bounded(s, config) && id in s.threads
    requires s.threads[id].pc.ResolveReady? || s.threads[id].pc.Rereading?
    ensures Bounded(Step(s, config, id, choice), config)
  {
    hide StepEnter, StepClose, StepRetry, StepLocal, GatesBounded, Inv, Gate;
    MoveBounded(s, Step(s, config, id, choice), config, id);
  }

  lemma {:induction false} RunBounded(config: Config, clock: Time, events: seq<Event>)
    requires config.Valid() && clock > ZERO_TIME && Forward(config, clock, events)
    ensures Bounded(Run(config, clock, events), config)
  {
    if events != [] {
      var prefix, event := events[..|events| - 1], events[|events| - 1];
      RunBounded(config, clock, prefix);
      RunKeeps(config, clock, prefix);
      var s := Run(config, clock, prefix);
      if event.Act? && event.id in s.threads {
        StepBounded(s, config, event.id, event.choice);
      } else {
        var s' := Apply(s, config, event);
        forall id | id in s'.threads
          ensures ThreadPast(s', s'.threads[id])
        {
          assert id in s.threads ==> ThreadPast(s, s.threads[id]);
        }
      }
    }
  }

  lemma StepBounded(s: System, config: Config, id: nat, choice: Choice)
    requires config.Valid() && Inv(s) && Bounded(s, config) && id in s.threads
    ensures Bounded(Step(s, config, id, choice), config)
  {
    match s.threads[id].pc
    case Entering(caller, decision) => EnterBounded(s, config, id, caller, decision);
    case Closing(caller, decision, number, result, now) =>
      CloseBounded(s, config, id, caller, decision, number, result, now);
    case RetryReady(previous, now) => RetryBounded(s, config, id, previous, now);
    case ResolveReady(_) => ReadBounded(s, config, id, choice);
    case Rereading(_, _, _, _) => ReadBounded(s, config, id, choice);
    case _ => LocalBounded(s, config, id, choice);
  }

  /** With a clock that never steps back, no flood of unknown keys or bad signatures can push any gate
      past one cooldown after the last attempt. */
  lemma GatesNeverRunAhead(config: Config, clock: Time, events: seq<Event>, reason: Reason)
    requires config.Valid() && clock > ZERO_TIME && Forward(config, clock, events)
    ensures var c := Run(config, clock, events).cache; Gate(c, reason) <= c.lastAttemptAt + config.cooldown
  {
    RunBounded(config, clock, events);
  }
}
