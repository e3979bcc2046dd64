/** Every interleaving of concurrent Authenticate calls over one shared key cache.

    A call is a thread whose steps are its clock readings, its critical sections, the end of
    its fetch and the verdict of the signature check. The log of flights and of installed key
    sets is kept beside the cache so that what a call returns can be compared with history. */
module Authenticate {
  import opened Wrappers
  import opened KeyCache

  /** What a caller noted when it decided to refresh. */
  datatype Decision = Decision(
    observedAttempt: nat,   // the attempt counter it read
    reason: Reason,
    decidedAt: Time,        // the clock reading it compared with the gates
    duringFlight: bool,     // a flight was running at that moment
    fetchEnd: Option<Time>, // and its fetch had ended then, at this reading of its leader
    seenGeneration: nat
  )

  /** The two callers of refresh. */
  datatype Caller = FromResolve | FromRetry(previous: CachedKey, freshBefore: bool)

  datatype Outcome =
    | Accepted(found: CachedKey, readAt: Time)
    | Refused(error: ResolveError)
    | SignatureInvalid

  datatype Pc =
    | Start
    | ResolveReady(now: Time)
    | Entering(caller: Caller, decision: Decision)
    | Fetching(caller: Caller, decision: Decision, number: nat)
    | Closing(caller: Caller, decision: Decision, number: nat, result: FetchResult, now: Time)
    | Waiting(caller: Caller, decision: Decision, number: nat)
    | Returned(caller: Caller, decision: Decision, succeeded: bool)
    | Rereading(caller: Caller, decision: Decision, succeeded: bool, now: Time)
    | RecordMiss
    | HaveKey(found: CachedKey, readAt: Time)
    | RetryStart(previous: CachedKey)
    | RetryReady(previous: CachedKey, now: Time)
    | HaveRetryKey(previous: CachedKey, found: CachedKey, readAt: Time)
    | Done(outcome: Outcome)

  /** One Authenticate call: its key reference, how often it entered refresh, where it is. */
  datatype Thread = Thread(ref: KeyReference, refreshes: nat, pc: Pc)

  /** Flight n, counted from 1, is logged at index n - 1. */
  datatype FlightLog = FlightLog(
    leader: nat,
    decision: Decision,
    generationBefore: nat,
    closed: bool,
    reasons: Flight,
    error: Option<FetchError>,
    endedAt: Time
  ) {
    predicate Succeeded() { closed && error.None? }
    predicate FailedProactive() { closed && error.Some? && reasons.proactive }
  }

  /** What may close a gate, each with the time of the attempt that it goes back to. */
  datatype Cause =
    | Ended(at: Time, reasons: Flight, failed: bool)   // a flight closed
    | CameLate(at: Time, reason: Reason, failed: bool) // a caller found the attempt it observed superseded
    | Missed(at: Time)                                 // a refreshed set lacked the key
    | Rejected(at: Time)                               // a signature failed soon after an attempt

  /** A caller led or joined the flight of this number. */
  datatype Boarding = Boarding(flight: nat, reason: Reason)

  /** Generation g, counted from 1, is logged at index g - 1. */
  datatype Installed = Installed(keys: map<KeyReference, Key>, freshUntil: Time)

  datatype System = System(
    cache: Cache,
    clock: Time,
    threads: map<nat, Thread>,
    flights: seq<FlightLog>,
    installs: seq<Installed>,
    causes: seq<Cause>,
    boarded: seq<Boarding>
  )

  /** What the environment decides for the step of one thread. */
  datatype Choice = Proceed | Cancel | FetchEnds(result: FetchResult) | Verdict(valid: bool)

  datatype Event = Spawn(id: nat, ref: KeyReference) | Tick(now: Time) | Act(id: nat, choice: Choice)

  function Boot(clock: Time): System {
    System(EMPTY, clock, map[], [], [], [], [])
  }

  // ----- one step of one thread

  function Move(s: System, id: nat, pc: Pc): System
    requires id in s.threads
  {
    s.(threads := s.threads[id := s.threads[id].(pc := pc)])
  }

  function GoRefresh(s: System, id: nat, caller: Caller, decision: Decision): System
    requires id in s.threads
  {
    s.(threads := s.threads[id := Thread(s.threads[id].ref, s.threads[id].refreshes + 1, Entering(caller, decision))])
  }

  /** The leader of the running flight has its fetch behind it and is about to close the flight. */
  function FetchEnd(s: System): Option<Time> {
    if s.cache.flight.Some? && |s.flights| > 0 then
      var leader := s.flights[|s.flights| - 1].leader;
      if leader in s.threads && s.threads[leader].pc.Closing? then Some(s.threads[leader].pc.now) else None
    else None
  }

  /** The last flight that closed. */
  function LastEnded(s: System): Option<FlightLog> {
    var n := if s.cache.flight.Some? then |s.flights| - 1 else |s.flights|;
    if n <= 0 then None else Some(s.flights[n - 1])
  }

  function StepResolve(s: System, id: nat, now: Time): System
    requires id in s.threads
  {
    match Look(s.cache, now, s.threads[id].ref)
    case Hit(found) => Move(s, id, HaveKey(found, now))
    case Miss(error) => Move(s, id, Done(Refused(error)))
    case NeedsRefresh(attempt, reason) =>
      GoRefresh(s, id, FromResolve,
                Decision(attempt, reason, now, s.cache.flight.Some?, FetchEnd(s), s.cache.generation))
  }

  function StepEnter(s: System, config: Config, id: nat, caller: Caller, decision: Decision): System
    requires id in s.threads
  {
    var (cache, entry) := EnterRefresh(s.cache, config, decision.observedAttempt, decision.reason);
    var s1 := s.(cache := cache);
    match entry
    case Joined(number) =>
      Move(s1.(boarded := s.boarded + [Boarding(|s.flights|, decision.reason)]), id, Waiting(caller, decision, number))
    case Settled(error) =>
      var causes := match LastEnded(s)
                    case None => []
                    case Some(log) => [CameLate(log.endedAt, decision.reason, log.error.Some?)];
      Move(s1.(causes := s.causes + causes), id, Returned(caller, decision, error.None?))
    case Leads(number) =>
      var log := FlightLog(id, decision, s.cache.generation, false, Flight(false, false, false, 0), None, ZERO_TIME);
      Move(s1.(flights := s.flights + [log], boarded := s.boarded + [Boarding(|s.flights| + 1, decision.reason)]),
           id, Fetching(caller, decision, number))
  }

  function StepClose(s: System, config: Config, id: nat, caller: Caller, decision: Decision, number: nat,
                     result: FetchResult, now: Time): System
    requires id in s.threads
  {
    if s.cache.flight.None? || !(0 < number <= |s.flights|) then s
    else
      var cache := FinishFlight(s.cache, config, now, result);
      var error := if result.FetchFailed? then Some(result.error) else None;
      var log := s.flights[number - 1].(closed := true, reasons := s.cache.flight.value, error := error,
                                        endedAt := now);
      var installed := if result.Fetched? then [Installed(result.keys, now + config.freshness)] else [];
      var cause := Ended(now, s.cache.flight.value, result.FetchFailed?);
      Move(s.(cache := cache, flights := s.flights[number - 1 := log], installs := s.installs + installed,
              causes := s.causes + [cause]),
           id, Returned(caller, decision, result.Fetched?))
  }

  function StepReread(s: System, id: nat, caller: Caller, succeeded: bool, now: Time): System
    requires id in s.threads
  {
    var ref := s.threads[id].ref;
    match caller
    case FromResolve =>
      (match LookAfterRefresh(s.cache, now, ref)
       case Hit(found) => Move(s, id, HaveKey(found, now))
       case Miss(error) => Move(s, id, if succeeded && error.NoMatchingKey? then RecordMiss else Done(Refused(error)))
       case NeedsRefresh(_, _) => s)
    case FromRetry(previous, freshBefore) =>
      (match LookAgainAfterRefresh(s.cache, now, ref, succeeded, freshBefore)
       case RetryWith(found) => Move(s, id, HaveRetryKey(previous, found, now))
       case RetryFails(error) => Move(s, id, Done(Refused(error)))
       case _ => s)
  }

  /** A key of the newest set failed while a proactive attempt cools down, or was looked up after an attempt of its
      own. */
  function Rejection(s: System, config: Config, previous: CachedKey, now: Time): seq<Cause> {
    if previous.generation != |s.installs| then []
    else if now < s.cache.nextProactive then [Rejected(s.cache.nextProactive - config.cooldown)]
    else if previous.refreshAttempted then [Rejected(previous.refreshAttemptedAt)]
    else []
  }

  function StepRetry(s: System, config: Config, id: nat, previous: CachedKey, now: Time): System
    requires id in s.threads
  {
    var (cache, outcome) := LookAgain(s.cache, config, now, s.threads[id].ref, previous);
    var s1 := s.(cache := cache, causes := s.causes + Rejection(s, config, previous, now));
    match outcome
    case RetryWith(found) => Move(s1, id, HaveRetryKey(previous, found, now))
    case RetryFails(error) => Move(s1, id, Done(Refused(error)))
    case NoRetry => Move(s1, id, Done(SignatureInvalid))
    case RetryRefresh(attempt, freshBefore) =>
      GoRefresh(s1, id, FromRetry(previous, freshBefore),
                Decision(attempt, Reactive, now, s.cache.flight.Some?, FetchEnd(s), s.cache.generation))
  }

  predicate HasSection(pc: Pc) {
    pc.ResolveReady? || pc.Entering? || pc.Closing? || pc.Rereading? || pc.RetryReady?
  }

  /** Where a thread goes outside the main sections: clock readings, waits, verdicts, cancellation. */
  function LocalPc(clock: Time, flights: seq<FlightLog>, pc: Pc, choice: Choice): Pc
    requires !HasSection(pc)
  {
    match pc
    case Start => if choice.Cancel? then Done(Refused(Cancelled)) else ResolveReady(clock)
    case Fetching(caller, decision, number) =>
      if choice.FetchEnds? && (choice.result.Fetched? ==> |choice.result.keys| > 0)
      then Closing(caller, decision, number, choice.result, clock) else pc
    case Waiting(caller, decision, number) =>
      if choice.Cancel? then Done(Refused(Cancelled))
      else if 0 < number <= |flights| && flights[number - 1].closed
      then Returned(caller, decision, flights[number - 1].error.None?)
      else pc
    case Returned(caller, decision, succeeded) =>
      if choice.Cancel? && !succeeded then Done(Refused(Cancelled)) else Rereading(caller, decision, succeeded, clock)
    case RecordMiss => Done(Refused(NoMatchingKey))
    case HaveKey(found, readAt) =>
      if !choice.Verdict? then pc else if choice.valid then Done(Accepted(found, readAt)) else RetryStart(found)
    case RetryStart(previous) => if choice.Cancel? then Done(Refused(Cancelled)) else RetryReady(previous, clock)
    case HaveRetryKey(previous, found, readAt) =>
      if !choice.Verdict? then pc else Done(if choice.valid then Accepted(found, readAt) else SignatureInvalid)
    case Done(_) => pc
  }

  /** Of those steps only the miss of a refreshed lookup writes: it closes the reactive gate. */
  function StepLocal(s: System, config: Config, id: nat, choice: Choice): System
    requires id in s.threads && !HasSection(s.threads[id].pc)
  {
    var pc := s.threads[id].pc;
    var cache := if pc.RecordMiss? then RecordCooldown(s.cache, config, Reactive, s.cache.lastAttemptAt) else s.cache;
    var causes := if pc.RecordMiss? && LastEnded(s).Some? then [Missed(LastEnded(s).value.endedAt)] else [];
    Move(s.(cache := cache, causes := s.causes + causes), id, LocalPc(s.clock, s.flights, pc, choice))
  }

  function Step(s: System, config: Config, id: nat, choice: Choice): System
    requires id in s.threads
  {
    match s.threads[id].pc
    case ResolveReady(now) => StepResolve(s, id, now)
    case Entering(caller, decision) => StepEnter(s, config, id, caller, decision)
    case Closing(caller, decision, number, result, now) =>
      StepClose(s, config, id, caller, decision, number, result, now)
    case Rereading(caller, decision, succeeded, now) => StepReread(s, id, caller, succeeded, now)
    case RetryReady(previous, now) => StepRetry(s, config, id, previous, now)
    case _ => StepLocal(s, config, id, choice)
  }

  /** Clocks never read the zero time. */
  function Apply(s: System, config: Config, event: Event): System {
    match event
    case Spawn(id, ref) => if id in s.threads then s else s.(threads := s.threads[id := Thread(ref, 0, Start)])
    case Tick(now) => if now > ZERO_TIME then s.(clock := now) else s
    case Act(id, choice) => if id in s.threads then Step(s, config, id, choice) else s
  }

  function Run(config: Config, clock: Time, events: seq<Event>): System {
    if events == [] then Boot(clock)
    else Apply(Run(config, clock, events[..|events| - 1]), config, events[|events| - 1])
  }

  // ----- what every reachable state satisfies

  /** The logs describe the cache exactly. */
  ghost predicate Logged(s: System) {
    && s.clock > ZERO_TIME
    && s.cache.attempt == |s.flights|
    && s.cache.generation == |s.installs|
    && (s.cache.flight.Some? ==> |s.flights| > 0)
    && (forall n :: 0 <= n < |s.flights| ==>
          (s.flights[n].closed <==> !(s.cache.flight.Some? && n == |s.flights| - 1)))
    && (|s.flights| > 0 && s.cache.flight.None? ==>
          s.cache.lastAttemptError == s.flights[|s.flights| - 1].error)
    && (|s.installs| == 0 ==> s.cache.keys == map[])
    && (|s.installs| > 0 ==>
          s.installs[|s.installs| - 1] == Installed(s.cache.keys, s.cache.freshUntil))
  }

  /** Generations only move when a flight closes, and by one for each success. */
  ghost predicate Counted(s: System) {
    && (forall n :: 0 <= n < |s.flights| ==> s.flights[n].generationBefore <= s.cache.generation)
    && (forall n, m :: 0 <= n < m < |s.flights| ==> s.flights[n].generationBefore <= s.flights[m].generationBefore)
    && (forall n :: 0 <= n < |s.flights| && s.flights[n].Succeeded() ==>
          s.flights[n].generationBefore < s.cache.generation)
    && (s.cache.flight.Some? && |s.flights| > 0 ==>
          s.flights[|s.flights| - 1].generationBefore == s.cache.generation)
    // the leader of flight n had observed attempt number n, counted from 0
    && (forall n :: 0 <= n < |s.flights| ==> s.flights[n].decision.observedAttempt == n)
  }

  /** The pair was installed together and had not expired at the reading. */
  ghost predicate Authentic(s: System, ref: KeyReference, found: CachedKey, readAt: Time) {
    && 0 < found.generation <= |s.installs|
    && ref in s.installs[found.generation - 1].keys
    && s.installs[found.generation - 1].keys[ref] == found.key
    && readAt < s.installs[found.generation - 1].freshUntil
  }

  ghost predicate Known(s: System, found: CachedKey) {
    found.generation <= s.cache.generation
  }

  ghost predicate Sane(s: System, caller: Caller, decision: Decision) {
    && decision.observedAttempt <= |s.flights|
    && decision.seenGeneration <= s.cache.generation
    && (decision.observedAttempt < |s.flights| ==>
          decision.seenGeneration <= s.flights[decision.observedAttempt].generationBefore)
    && (caller.FromRetry? ==>
        decision.seenGeneration == caller.previous.generation && !caller.previous.refreshAttempted)
  }

  /** The caller's flight number is one that began no earlier than the generation it saw. */
  ghost predicate OnFlight(s: System, decision: Decision, number: nat) {
    && 0 < number <= |s.flights|
    && decision.seenGeneration <= s.flights[number - 1].generationBefore
  }

  ghost predicate LeadsFlight(s: System, id: nat, number: nat) {
    number == |s.flights| && s.cache.flight.Some? && number > 0 && s.flights[number - 1].leader == id
  }

  ghost predicate ThreadOk(s: System, id: nat, t: Thread) {
    match t.pc
    case Start => t.refreshes == 0
    case ResolveReady(_) => t.refreshes == 0
    case Entering(caller, decision) => t.refreshes == 1 && Sane(s, caller, decision)
    case Fetching(caller, decision, number) =>
      t.refreshes == 1 && Sane(s, caller, decision) && OnFlight(s, decision, number) && LeadsFlight(s, id, number)
    case Closing(caller, decision, number, result, _) =>
      && t.refreshes == 1 && Sane(s, caller, decision) && OnFlight(s, decision, number) && LeadsFlight(s, id, number)
      && (result.Fetched? ==> |result.keys| > 0)
    case Waiting(caller, decision, number) =>
      t.refreshes == 1 && Sane(s, caller, decision) && OnFlight(s, decision, number)
    case Returned(caller, decision, succeeded) =>
      t.refreshes == 1 && Sane(s, caller, decision) && (succeeded ==> decision.seenGeneration < s.cache.generation)
    case Rereading(caller, decision, succeeded, _) =>
      t.refreshes == 1 && Sane(s, caller, decision) && (succeeded ==> decision.seenGeneration < s.cache.generation)
    case RecordMiss => t.refreshes == 1
    case HaveKey(found, readAt) =>
      t.refreshes <= 1 && Authentic(s, t.ref, found, readAt) && (t.refreshes == 1 ==> found.refreshAttempted)
    case RetryStart(previous) =>
      t.refreshes <= 1 && Known(s, previous) && (t.refreshes == 1 ==> previous.refreshAttempted)
    case RetryReady(previous, _) =>
      t.refreshes <= 1 && Known(s, previous) && (t.refreshes == 1 ==> previous.refreshAttempted)
    case HaveRetryKey(previous, found, readAt) =>
      t.refreshes <= 1 && Authentic(s, t.ref, found, readAt) && found.generation > previous.generation
    case Done(outcome) =>
      t.refreshes <= 1 && (outcome.Accepted? ==> Authentic(s, t.ref, outcome.found, outcome.readAt))
  }

  ghost predicate Inv(s: System) {
    && Logged(s)
    && Counted(s)
    && (forall id :: id in s.threads ==> ThreadOk(s, id, s.threads[id]))
  }

  /** History only grows: what is logged stays, up to closing the running flight. */
  ghost predicate Grows(s: System, s': System) {
    && |s.flights| <= |s'.flights|
    && (forall n :: 0 <= n < |s.flights| ==> s'.flights[n].generationBefore == s.flights[n].generationBefore)
    && (forall n :: 0 <= n < |s.flights| ==> s'.flights[n].leader == s.flights[n].leader)
    && s.installs <= s'.installs
    && s.cache.generation <= s'.cache.generation
    && (forall n :: |s.flights| <= n < |s'.flights| ==> s.cache.generation <= s'.flights[n].generationBefore)
  }

  /** A thread that does not move keeps its guarantees unless it leads the flight that another thread closes. */
  lemma OtherKeeps(s: System, s': System, id: nat, t: Thread)
    requires ThreadOk(s, id, t) && Grows(s, s')
    requires LeadsFlight(s, id, |s.flights|) ==> LeadsFlight(s', id, |s.flights|)
    ensures ThreadOk(s', id, t)
  {
  }

  /** The pattern of every step: one thread moves, history grows, no other thread loses its flight. */
  lemma MoveKeeps(s: System, s': System, id: nat)
    requires Inv(s) && id in s.threads && id in s'.threads
    requires s'.threads == s.threads[id := s'.threads[id]]
    requires Logged(s') && Counted(s') && Grows(s, s')
    requires ThreadOk(s', id, s'.threads[id])
    requires forall other :: other != id && LeadsFlight(s, other, |s.flights|) ==> LeadsFlight(s', other, |s.flights|)
    ensures Inv(s')
  {
    forall other | other in s'.threads && other != id
      ensures ThreadOk(s', other, s'.threads[other])
    {
      OtherKeeps(s, s', other, s.threads[other]);
    }
  }

  /** Steps that touch at most the gates and the reasons of the running flight. */
  ghost predicate SameCore(c: Cache, c': Cache) {
    && c'.keys == c.keys && c'.generation == c.generation && c'.freshUntil == c.freshUntil
    && c'.attempt == c.attempt && c'.lastAttemptError == c.lastAttemptError
    && c'.lastAttemptAt == c.lastAttemptAt && (c'.flight.Some? <==> c.flight.Some?)
  }

  lemma QuietKeeps(s: System, s': System, id: nat)
    requires Inv(s) && id in s.threads && id in s'.threads
    requires Quiet(s, s', id)
    ensures Inv(s')
  {
    MoveKeeps(s, s', id);
  }

  /** A thread has begun the next flight. */
  ghost predicate Led(s: System, s': System, id: nat, caller: Caller, decision: Decision)
    requires id in s.threads
  {
    && s'.clock == s.clock && s'.installs == s.installs
    && s'.cache.keys == s.cache.keys && s'.cache.generation == s.cache.generation
    && s'.cache.freshUntil == s.cache.freshUntil && s'.cache.refreshAt == s.cache.refreshAt
    && s'.cache.lastAttemptAt == s.cache.lastAttemptAt && s'.cache.attempt == s.cache.attempt + 1
    && s'.cache.flight.Some? && |s'.flights| == |s.flights| + 1 && s'.flights[..|s.flights|] == s.flights
    && var log := s'.flights[|s.flights|];
       && log.leader == id && log.decision == decision && log.generationBefore == s.cache.generation && !log.closed
       && s'.threads == s.threads[id := s.threads[id].(pc := Fetching(caller, decision, s.cache.attempt + 1))]
  }

  lemma EnterLeads(s: System, config: Config, id: nat, caller: Caller, decision: Decision)
    requires id in s.threads && s.cache.flight.None? && s.cache.attempt == decision.observedAttempt
    ensures Led(s, StepEnter(s, config, id, caller, decision), id, caller, decision)
  {
  }

  lemma LeadLogged(s: System, s': System, id: nat, caller: Caller, decision: Decision)
    requires Logged(s) && s.cache.flight.None? && id in s.threads && Led(s, s', id, caller, decision)
    ensures Logged(s')
  {
    forall n | 0 <= n < |s.flights|
      ensures s'.flights[n] == s.flights[n]
    {
      assert s'.flights[..|s.flights|][n] == s'.flights[n];
    }
  }

  lemma LeadCounted(s: System, s': System, id: nat, caller: Caller, decision: Decision)
    requires Logged(s) && Counted(s) && s.cache.attempt == decision.observedAttempt
    requires id in s.threads && Led(s, s', id, caller, decision)
    ensures Counted(s') && Grows(s, s')
  {
    hide Logged;
    assert s.cache.attempt == |s.flights| by { LoggedAttempt(s); }
    forall n | 0 <= n < |s.flights|
      ensures s'.flights[n] == s.flights[n]
    {
      assert s'.flights[..|s.flights|][n] == s'.flights[n];
    }
  }

  lemma LoggedAttempt(s: System)
    requires Logged(s)
    ensures s.cache.attempt == |s.flights|
  {
  }

  lemma LeaderOk(s: System, s': System, id: nat, caller: Caller, decision: Decision)
    requires Logged(s) && id in s.threads && s.threads[id].refreshes == 1 && Sane(s, caller, decision)
    requires s.cache.attempt == decision.observedAttempt && Led(s, s', id, caller, decision)
    ensures ThreadOk(s', id, s'.threads[id])
  {
  }

  /** Joining the running flight, or settling with an attempt that is over, leaves the logs alone. */
  lemma LateEntryIsQuiet(s: System, config: Config, id: nat, caller: Caller, decision: Decision)
    requires Logged(s) && Counted(s) && id in s.threads && s.threads[id].pc == Entering(caller, decision)
    requires ThreadOk(s, id, s.threads[id])
    requires s.cache.flight.Some? || s.cache.attempt != decision.observedAttempt
    ensures Quiet(s, StepEnter(s, config, id, caller, decision), id)
  {
    if s.cache.flight.None? {
      var last := |s.flights| - 1;
      assert s.flights[decision.observedAttempt].generationBefore <= s.flights[last].generationBefore;
    }
  }

  lemma EnterKeeps(s: System, config: Config, id: nat, caller: Caller, decision: Decision)
    requires Inv(s) && id in s.threads && s.threads[id].pc == Entering(caller, decision)
    ensures Inv(StepEnter(s, config, id, caller, decision))
  {
    var s' := StepEnter(s, config, id, caller, decision);
    assert ThreadOk(s, id, s.threads[id]);
    if s.cache.flight.None? && s.cache.attempt == decision.observedAttempt {
      EnterLeads(s, config, id, caller, decision);
      hide StepEnter, Logged, Counted, Grows;
      LeadLogged(s, s', id, caller, decision);
      LeadCounted(s, s', id, caller, decision);
      LeaderOk(s, s', id, caller, decision);
      NoLeader(s);
      MoveKeeps(s, s', id);
    } else {
      hide StepEnter, Logged, Counted, Quiet;
      LateEntryIsQuiet(s, config, id, caller, decision);
      QuietKeeps(s, s', id);
    }
  }

  lemma NoLeader(s: System)
    requires s.cache.flight.None?
    ensures forall id :: !LeadsFlight(s, id, |s.flights|)
  {
  }

  /** What closing a flight does to everything but the gates. */
  ghost predicate Finished(c: Cache, c': Cache, config: Config, now: Time, result: FetchResult) {
    && c'.flight == None && c'.attempt == c.attempt && c'.lastAttemptAt == now
    && c'.lastAttemptError == (if result.FetchFailed? then Some(result.error) else None)
    && c'.generation == (if result.Fetched? then c.generation + 1 else c.generation)
    && c'.keys == (if result.Fetched? then result.keys else c.keys)
    && c'.freshUntil == (if result.Fetched? then now + config.freshness else c.freshUntil)
    && c'.refreshAt == (if result.Fetched? then now + config.freshness - config.refreshAhead else c.refreshAt)
  }

  lemma FinishEffect(c: Cache, config: Config, now: Time, result: FetchResult)
    requires c.flight.Some?
    ensures Finished(c, FinishFlight(c, config, now, result), config, now, result)
  {
  }

  lemma CloseLogs(s: System, s': System, config: Config, log: FlightLog, result: FetchResult, now: Time)
    requires Logged(s) && Counted(s) && s.cache.flight.Some?
    requires Finished(s.cache, s'.cache, config, now, result) && s'.clock == s.clock
    requires log == s.flights[|s.flights| - 1].(closed := true, reasons := log.reasons, endedAt := now,
                                                error := s'.cache.lastAttemptError)
    requires s'.flights == s.flights[|s.flights| - 1 := log]
    requires s'.installs == if result.Fetched? then s.installs + [Installed(result.keys, s'.cache.freshUntil)]
                            else s.installs
    ensures Logged(s') && Counted(s') && Grows(s, s')
  {
  }

  lemma CloseKeeps(s: System, config: Config, id: nat, caller: Caller, decision: Decision, number: nat,
                   result: FetchResult, now: Time)
    requires Inv(s) && id in s.threads && s.threads[id].pc == Closing(caller, decision, number, result, now)
    ensures Inv(StepClose(s, config, id, caller, decision, number, result, now))
  {
    assert ThreadOk(s, id, s.threads[id]);
    var s' := StepClose(s, config, id, caller, decision, number, result, now);
    FinishEffect(s.cache, config, now, result);
    CloseLogs(s, s', config, s'.flights[number - 1], result, now);
    MoveKeeps(s, s', id);
  }

  /** Exactly one thread moved, and the core of the cache and the logs stand still. */
  ghost predicate Quiet(s: System, s': System, id: nat) {
    && SameCore(s.cache, s'.cache) && s'.clock == s.clock && s'.flights == s.flights
    && s'.installs == s.installs && id in s'.threads && s'.threads == s.threads[id := s'.threads[id]]
    && ThreadOk(s', id, s'.threads[id])
  }

  /** What the cache serves while fresh is what was installed. */
  lemma ServedIsAuthentic(s: System, ref: KeyReference, now: Time, found: CachedKey)
    requires Logged(s) && ref in s.cache.keys && s.cache.Fresh(now)
    requires found.key == s.cache.keys[ref] && found.generation == s.cache.generation
    ensures Authentic(s, ref, found, now)
  {
  }

  /** A thread that moves without touching the core of the cache only has to be well where it lands. */
  lemma MoveIsQuiet(s: System, cache: Cache, id: nat, pc: Pc)
    requires id in s.threads && SameCore(s.cache, cache)
    requires ThreadOk(s, id, s.threads[id].(pc := pc))
    ensures Quiet(s, Move(s.(cache := cache), id, pc), id)
  {
    OtherKeeps(s, Move(s.(cache := cache), id, pc), id, s.threads[id].(pc := pc));
  }

  lemma ResolveStep(s: System, id: nat, now: Time)
    requires Logged(s) && id in s.threads && ThreadOk(s, id, s.threads[id]) && s.threads[id].pc == ResolveReady(now)
    ensures Quiet(s, StepResolve(s, id, now), id)
  {
  }

  lemma RereadForResolve(s: System, id: nat, decision: Decision, succeeded: bool, now: Time)
    requires Logged(s) && id in s.threads && ThreadOk(s, id, s.threads[id])
    requires s.threads[id].pc == Rereading(FromResolve, decision, succeeded, now)
    ensures Quiet(s, StepReread(s, id, FromResolve, succeeded, now), id)
  {
    var ref := s.threads[id].ref;
    var outcome := LookAfterRefresh(s.cache, now, ref);
    if outcome.Hit? {
      ServedIsAuthentic(s, ref, now, outcome.found);
      MoveIsQuiet(s, s.cache, id, HaveKey(outcome.found, now));
    } else {
      MoveIsQuiet(s, s.cache, id, if succeeded && outcome.error.NoMatchingKey? then RecordMiss
                                  else Done(Refused(outcome.error)));
    }
  }

  lemma RereadForRetry(s: System, id: nat, previous: CachedKey, freshBefore: bool, decision: Decision,
                       succeeded: bool, now: Time)
    requires Logged(s) && id in s.threads && ThreadOk(s, id, s.threads[id])
    requires s.threads[id].pc == Rereading(FromRetry(previous, freshBefore), decision, succeeded, now)
    ensures Quiet(s, StepReread(s, id, FromRetry(previous, freshBefore), succeeded, now), id)
  {
    var ref := s.threads[id].ref;
    var outcome := LookAgainAfterRefresh(s.cache, now, ref, succeeded, freshBefore);
    if outcome.RetryWith? {
      ServedIsAuthentic(s, ref, now, outcome.found);
      MoveIsQuiet(s, s.cache, id, HaveRetryKey(previous, outcome.found, now));
    } else {
      MoveIsQuiet(s, s.cache, id, Done(Refused(outcome.error)));
    }
  }

  lemma RereadStep(s: System, id: nat, caller: Caller, decision: Decision, succeeded: bool, now: Time)
    requires Logged(s) && id in s.threads && ThreadOk(s, id, s.threads[id])
    requires s.threads[id].pc == Rereading(caller, decision, succeeded, now)
    ensures Quiet(s, StepReread(s, id, caller, succeeded, now), id)
  {
    match caller
    case FromResolve => RereadForResolve(s, id, decision, succeeded, now);
    case FromRetry(previous, freshBefore) => RereadForRetry(s, id, previous, freshBefore, decision, succeeded, now);
  }

  lemma RetrySameCore(c: Cache, config: Config, now: Time, ref: KeyReference, previous: CachedKey)
    ensures SameCore(c, LookAgain(c, config, now, ref, previous).0)
  {
  }

  lemma RetryStep(s: System, config: Config, id: nat, previous: CachedKey, now: Time)
    requires Logged(s) && id in s.threads && ThreadOk(s, id, s.threads[id])
             && s.threads[id].pc == RetryReady(previous, now)
    ensures Quiet(s, StepRetry(s, config, id, previous, now), id)
  {
    var t := s.threads[id];
    var (cache, outcome) := LookAgain(s.cache, config, now, t.ref, previous);
    RetrySameCore(s.cache, config, now, t.ref, previous);
    match outcome
    case RetryWith(found) =>
      ServedIsAuthentic(s, t.ref, now, found);
      MoveIsQuiet(s, cache, id, HaveRetryKey(previous, found, now));
    case RetryFails(error) => MoveIsQuiet(s, cache, id, Done(Refused(error)));
    case NoRetry => MoveIsQuiet(s, cache, id, Done(SignatureInvalid));
    case RetryRefresh(_, _) => RetryGoes(s, config, id, previous, now);
  }

  lemma RetryGoes(s: System, config: Config, id: nat, previous: CachedKey, now: Time)
    requires Logged(s) && id in s.threads && ThreadOk(s, id, s.threads[id])
             && s.threads[id].pc == RetryReady(previous, now)
    requires LookAgain(s.cache, config, now, s.threads[id].ref, previous).1.RetryRefresh?
    ensures Quiet(s, StepRetry(s, config, id, previous, now), id)
  {
  }

  lemma LocalPcOk(s: System, id: nat, t: Thread, choice: Choice)
    requires Logged(s) && Counted(s) && ThreadOk(s, id, t) && !HasSection(t.pc)
    ensures ThreadOk(s, id, t.(pc := LocalPc(s.clock, s.flights, t.pc, choice)))
  {
  }

  lemma LocalStep(s: System, config: Config, id: nat, choice: Choice)
    requires Logged(s) && Counted(s) && id in s.threads && ThreadOk(s, id, s.threads[id])
    requires !HasSection(s.threads[id].pc)
    ensures Quiet(s, StepLocal(s, config, id, choice), id)
  {
    var s' := StepLocal(s, config, id, choice);
    LocalPcOk(s, id, s.threads[id], choice);
    assert SameCore(s.cache, s'.cache);
    OtherKeeps(s, s', id, s'.threads[id]);
  }

  lemma StepKeeps(s: System, config: Config, id: nat, choice: Choice)
    requires Inv(s) && id in s.threads
    ensures Inv(Step(s, config, id, choice))
  {
    hide StepEnter, StepClose, StepResolve, StepReread, StepRetry, Logged, Counted, ThreadOk, Quiet;
    var s' := Step(s, config, id, choice);
    assert ThreadOk(s, id, s.threads[id]);
    var pc := s.threads[id].pc;
    if pc.Entering? {
      var Entering(caller, decision) := pc;
      EnterKeeps(s, config, id, caller, decision);
    } else if pc.Closing? {
      var Closing(caller, decision, number, result, now) := pc;
      CloseKeeps(s, config, id, caller, decision, number, result, now);
    } else if pc.ResolveReady? {
      var ResolveReady(now) := pc;
      ResolveStep(s, id, now);
      QuietKeeps(s, s', id);
    } else if pc.Rereading? {
      var Rereading(caller, decision, succeeded, now) := pc;
      RereadStep(s, id, caller, decision, succeeded, now);
      QuietKeeps(s, s', id);
    } else if pc.RetryReady? {
      var RetryReady(previous, now) := pc;
      RetryStep(s, config, id, previous, now);
      QuietKeeps(s, s', id);
    } else {
      LocalStep(s, config, id, choice);
      QuietKeeps(s, s', id);
    }
  }

  lemma SpawnKeeps(s: System, id: nat, ref: KeyReference)
    requires Inv(s) && id !in s.threads
    ensures Inv(s.(threads := s.threads[id := Thread(ref, 0, Start)]))
  {
    var s' := s.(threads := s.threads[id := Thread(ref, 0, Start)]);
    forall other | other in s.threads
      ensures ThreadOk(s', other, s.threads[other])
    {
      OtherKeeps(s, s', other, s.threads[other]);
    }
  }

  lemma TickKeeps(s: System, now: Time)
    requires Inv(s) && now > ZERO_TIME
    ensures Inv(s.(clock := now))
  {
    var s' := s.(clock := now);
    forall other | other in s.threads
      ensures ThreadOk(s', other, s.threads[other])
    {
      OtherKeeps(s, s', other, s.threads[other]);
    }
  }

  lemma ApplyKeeps(s: System, config: Config, event: Event)
    requires Inv(s)
    ensures Inv(Apply(s, config, event))
  {
    hide Inv, Step;
    match event
    case Spawn(id, ref) => if id !in s.threads { SpawnKeeps(s, id, ref); }
    case Tick(now) => if now > ZERO_TIME { TickKeeps(s, now); }
    case Act(id, choice) => if id in s.threads { StepKeeps(s, config, id, choice); }
  }

  lemma {:induction false} RunKeeps(config: Config, clock: Time, events: seq<Event>)
    requires clock > ZERO_TIME
    ensures Inv(Run(config, clock, events))
  {
    if events != [] {
      RunKeeps(config, clock, events[..|events| - 1]);
      ApplyKeeps(Run(config, clock, events[..|events| - 1]), config, events[|events| - 1]);
    }
  }

  // ----- what callers can rely on, in every interleaving and with any clock

  /** A key handed out after a signature failure comes from a strictly newer set than the key that failed. */
  lemma RetryKeyIsNewer(config: Config, clock: Time, events: seq<Event>, id: nat)
    requires clock > ZERO_TIME
    requires var s := Run(config, clock, events); id in s.threads && s.threads[id].pc.HaveRetryKey?
    ensures var pc := Run(config, clock, events).threads[id].pc; pc.found.generation > pc.previous.generation
  {
    RunKeeps(config, clock, events);
  }

  /** A key in hand, verified or not yet, is the entry of its reference in the set installed at its
      generation, and that set had not expired at the clock reading used. */
  lemma KeysAreAuthentic(config: Config, clock: Time, events: seq<Event>, id: nat)
    requires clock > ZERO_TIME && id in Run(config, clock, events).threads
    ensures var s := Run(config, clock, events); var t := s.threads[id];
            && (t.pc.HaveKey? ==> Authentic(s, t.ref, t.pc.found, t.pc.readAt))
            && (t.pc.HaveRetryKey? ==> Authentic(s, t.ref, t.pc.found, t.pc.readAt))
            && (t.pc.Done? && t.pc.outcome.Accepted? ==> Authentic(s, t.ref, t.pc.outcome.found, t.pc.outcome.readAt))
  {
    RunKeeps(config, clock, events);
  }

  /** One Authenticate call enters refresh at most once, retry included. */
  lemma RefreshesAtMostOnce(config: Config, clock: Time, events: seq<Event>, id: nat)
    requires clock > ZERO_TIME && id in Run(config, clock, events).threads
    ensures Run(config, clock, events).threads[id].refreshes <= 1
  {
    RunKeeps(config, clock, events);
    var s := Run(config, clock, events);
    assert ThreadOk(s, id, s.threads[id]);
  }

  predicate InFlight(pc: Pc) {
    pc.Fetching? || pc.Closing?
  }

  lemma SoleFlight(s: System, left: nat, right: nat)
    requires Inv(s) && left in s.threads && right in s.threads
    requires InFlight(s.threads[left].pc) && InFlight(s.threads[right].pc)
    ensures left == right
  {
    assert ThreadOk(s, left, s.threads[left]) && ThreadOk(s, right, s.threads[right]);
  }

  /** Two threads are never in a fetch at once, and a flight starts only after every earlier one closed. */
  lemma FlightsNeverOverlap(config: Config, clock: Time, events: seq<Event>)
    requires clock > ZERO_TIME
    ensures var s := Run(config, clock, events);
            forall left, right | left in s.threads && right in s.threads ::
              InFlight(s.threads[left].pc) && InFlight(s.threads[right].pc) ==> left == right
    ensures var s := Run(config, clock, events); forall n :: 0 <= n < |s.flights| - 1 ==> s.flights[n].closed
  {
    RunKeeps(config, clock, events);
    var s := Run(config, clock, events);
    forall left, right | left in s.threads && right in s.threads
      && InFlight(s.threads[left].pc) && InFlight(s.threads[right].pc)
      ensures left == right
    {
      SoleFlight(s, left, right);
    }
  }

  /** Of all callers that observed the same attempt number at most one started a fetch. */
  lemma OneFetchPerObservedAttempt(config: Config, clock: Time, events: seq<Event>, n: nat, m: nat)
    requires clock > ZERO_TIME
    requires var s := Run(config, clock, events); n < |s.flights| && m < |s.flights|
    requires var s := Run(config, clock, events);
             s.flights[n].decision.observedAttempt == s.flights[m].decision.observedAttempt
    ensures n == m
  {
    RunKeeps(config, clock, events);
  }
}
