/** Who was on a flight: its reasons are exactly those of the callers that led or joined it. */
module Boardings {
  import opened Wrappers
  import opened KeyCache
  import opened Authenticate

  /** How many callers boarded a flight. */
  function Aboard(boarded: seq<Boarding>, flight: nat): nat {
    if boarded == [] then 0
    else Aboard(boarded[..|boarded| - 1], flight) + if boarded[|boarded| - 1].flight == flight then 1 else 0
  }

  /** The reasons and the count of followers of a flight are those of its boardings. */
  ghost predicate Manifest(f: Flight, boarded: seq<Boarding>, flight: nat) {
    && (f.required <==> Boarding(flight, Required) in boarded)
    && (f.proactive <==> Boarding(flight, Proactive) in boarded)
    && (f.reactive <==> Boarding(flight, Reactive) in boarded)
    && Aboard(boarded, flight) == f.followers + 1
  }

  lemma BoardsOther(f: Flight, boarded: seq<Boarding>, flight: nat, b: Boarding)
    requires Manifest(f, boarded, flight) && b.flight != flight
    ensures Manifest(f, boarded + [b], flight)
  {
    assert (boarded + [b])[..|boarded|] == boarded;
  }

  lemma BoardsThis(f: Flight, boarded: seq<Boarding>, flight: nat, reason: Reason)
    requires Manifest(f, boarded, flight)
    ensures var joined := f.AddReason(reason);
            Manifest(joined.(followers := joined.followers + 1), boarded + [Boarding(flight, reason)], flight)
  {
    assert (boarded + [Boarding(flight, reason)])[..|boarded|] == boarded;
  }

  lemma {:induction false} NobodyAboard(boarded: seq<Boarding>, flight: nat)
    requires forall i :: 0 <= i < |boarded| ==> boarded[i].flight != flight
    ensures Aboard(boarded, flight) == 0
  {
    if boarded != [] { NobodyAboard(boarded[..|boarded| - 1], flight); }
  }

  lemma BoardsFirst(boarded: seq<Boarding>, flight: nat, reason: Reason)
    requires forall i :: 0 <= i < |boarded| ==> boarded[i].flight != flight
    ensures Manifest(Flight(false, false, false, 0).AddReason(reason), boarded + [Boarding(flight, reason)], flight)
  {
    NobodyAboard(boarded, flight);
    assert (boarded + [Boarding(flight, reason)])[..|boarded|] == boarded;
  }

  /** Every closed flight is logged with its manifest, and the running one carries its own. */
  ghost predicate Listed(s: System) {
    && (forall i :: 0 <= i < |s.boarded| ==> s.boarded[i].flight <= |s.flights|)
    && (forall n :: 0 <= n < |s.flights| && s.flights[n].closed ==> Manifest(s.flights[n].reasons, s.boarded, n + 1))
    && (s.cache.flight.Some? ==> Manifest(s.cache.flight.value, s.boarded, |s.flights|))
  }

  lemma LeadListed(s: System, config: Config, id: nat, caller: Caller, decision: Decision)
    requires Logged(s) && Listed(s) && id in s.threads && s.cache.flight.None?
    requires s.cache.attempt == decision.observedAttempt
    ensures Listed(StepEnter(s, config, id, caller, decision))
  {
    var s' := StepEnter(s, config, id, caller, decision);
    hide Manifest;
    var b := Boarding(|s.flights| + 1, decision.reason);
    BoardsFirst(s.boarded, |s.flights| + 1, decision.reason);
    forall n | 0 <= n < |s'.flights| && s'.flights[n].closed
      ensures Manifest(s'.flights[n].reasons, s'.boarded, n + 1)
    {
      assert s'.flights[n] == s.flights[n];
      BoardsOther(s.flights[n].reasons, s.boarded, n + 1, b);
    }
  }

  lemma JoinListed(s: System, config: Config, id: nat, caller: Caller, decision: Decision)
    requires Logged(s) && Listed(s) && id in s.threads && s.cache.flight.Some?
    ensures Listed(StepEnter(s, config, id, caller, decision))
  {
    var s' := StepEnter(s, config, id, caller, decision);
    hide Manifest;
    var b := Boarding(|s.flights|, decision.reason);
    BoardsThis(s.cache.flight.value, s.boarded, |s.flights|, decision.reason);
    forall n | 0 <= n < |s'.flights| && s'.flights[n].closed
      ensures Manifest(s'.flights[n].reasons, s'.boarded, n + 1)
    {
      BoardsOther(s.flights[n].reasons, s.boarded, n + 1, b);
    }
  }

  lemma CloseListed(s: System, config: Config, id: nat, caller: Caller, decision: Decision, number: nat,
                    result: FetchResult, now: Time)
    requires Logged(s) && Listed(s) && id in s.threads && s.cache.flight.Some? && number == |s.flights| > 0
    ensures Listed(StepClose(s, config, id, caller, decision, number, result, now))
  {
    hide Manifest, FinishFlight;
    FinishEffect(s.cache, config, now, result);
  }

  /** A step that leaves flights and boardings alone. */
  ghost predicate Untouched(s: System, s': System) {
    s'.flights == s.flights && s'.boarded == s.boarded && s'.cache.flight == s.cache.flight
  }

  lemma LateUntouched(s: System, config: Config, id: nat, caller: Caller, decision: Decision)
    requires id in s.threads && s.cache.flight.None? && s.cache.attempt != decision.observedAttempt
    ensures Untouched(s, StepEnter(s, config, id, caller, decision))
  {
  }

  lemma RetryUntouched(s: System, config: Config, id: nat, previous: CachedKey, now: Time)
    requires id in s.threads
    ensures Untouched(s, StepRetry(s, config, id, previous, now))
  {
    hide Rejection, FetchEnd;
  }

  lemma QuietUntouched(s: System, config: Config, id: nat, choice: Choice)
    requires id in s.threads && !s.threads[id].pc.Entering? && !s.threads[id].pc.Closing?
    ensures Untouched(s, Step(s, config, id, choice))
  {
    hide StepRetry, LocalPc, FetchEnd, LastEnded, Look, LookAfterRefresh, LookAgainAfterRefresh;
    if s.threads[id].pc.RetryReady? {
      RetryUntouched(s, config, id, s.threads[id].pc.previous, s.threads[id].pc.now);
    }
  }

  lemma StepListed(s: System, config: Config, id: nat, choice: Choice)
    requires Inv(s) && Listed(s) && id in s.threads
    ensures Listed(Step(s, config, id, choice))
  {
    var pc := s.threads[id].pc;
    assert ThreadOk(s, id, s.threads[id]);
    hide StepEnter, StepClose, StepResolve, StepReread, StepRetry, StepLocal, Counted, Manifest;
    if pc.Entering? {
      if s.cache.flight.Some? {
        JoinListed(s, config, id, pc.caller, pc.decision);
      } else if s.cache.attempt == pc.decision.observedAttempt {
        LeadListed(s, config, id, pc.caller, pc.decision);
      } else {
        LateUntouched(s, config, id, pc.caller, pc.decision);
      }
    } else if pc.Closing? {
      CloseListed(s, config, id, pc.caller, pc.decision, pc.number, pc.result, pc.now);
    } else {
      QuietUntouched(s, config, id, choice);
    }
  }

  lemma {:induction false} RunListed(config: Config, clock: Time, events: seq<Event>)
    requires clock > ZERO_TIME
    ensures Listed(Run(config, clock, events))
  {
    if events != [] {
      var s, event := Run(config, clock, events[..|events| - 1]), events[|events| - 1];
      RunListed(config, clock, events[..|events| - 1]);
      RunKeeps(config, clock, events[..|events| - 1]);
      hide Inv, Step, Manifest;
      if event.Act? && event.id in s.threads { StepListed(s, config, event.id, event.choice); }
    }
  }

  /** In every run a closed flight carries a reason exactly when some caller with that reason led or joined it. */
  lemma ReasonsAreThoseAboard(config: Config, clock: Time, events: seq<Event>, n: nat)
    requires clock > ZERO_TIME && n < |Run(config, clock, events).flights|
    requires Run(config, clock, events).flights[n].closed
    ensures var s := Run(config, clock, events); Manifest(s.flights[n].reasons, s.boarded, n + 1)
  {
    RunListed(config, clock, events);
  }
}
