/** The OIDC verification-key cache: one value per critical section, and the
    mutex-guarded object whose methods are those critical sections.

    Times are counted from Go's zero time.Time, which is ZERO_TIME here. */
module KeyCache {
  import opened Wrappers

  type Time = int

  const ZERO_TIME: Time := 0

  /** A key identifier together with its bound signature algorithm. */
  datatype KeyReference = KeyReference(keyID: string, algorithm: string)

  /** Verification key material; its content never influences the cache. */
  type Key = nat

  /** The validated cache settings: RefreshAhead < Freshness, all positive. */
  datatype Config = Config(freshness: Time, refreshAhead: Time, cooldown: Time) {
    ghost predicate Valid() {
      0 < refreshAhead < freshness && 0 < cooldown
    }
  }

  datatype Reason = Required | Proactive | Reactive

  datatype FetchError = ContextDone | SourceUnavailable

  /** A fetch delivers a key set or an error. The fetcher turns an empty set into an error. */
  datatype FetchResult = Fetched(keys: map<KeyReference, Key>) | FetchFailed(error: FetchError)

  /** The reasons collected by the flight in progress. */
  datatype Flight = Flight(required: bool, proactive: bool, reactive: bool, followers: nat) {
    function AddReason(reason: Reason): Flight {
      match reason
      case Required => this.(required := true)
      case Proactive => this.(proactive := true)
      case Reactive => this.(reactive := true)
    }
  }

  datatype Cache = Cache(
    keys: map<KeyReference, Key>,
    generation: nat,
    freshUntil: Time,
    refreshAt: Time,
    nextRequired: Time,
    nextProactive: Time,
    nextReactive: Time,
    attempt: nat,
    lastAttemptAt: Time,
    lastAttemptError: Option<FetchError>,
    flight: Option<Flight>
  ) {
    predicate Fresh(now: Time) {
      |keys| > 0 && now < freshUntil
    }
  }

  const EMPTY := Cache(map[], 0, ZERO_TIME, ZERO_TIME, ZERO_TIME, ZERO_TIME, ZERO_TIME, 0, ZERO_TIME, None, None)

  /** What a caller holds after a lookup. */
  datatype CachedKey = CachedKey(key: Key, generation: nat, refreshAttempted: bool, refreshAttemptedAt: Time)

  datatype ResolveError = NoMatchingKey | KeySourceUnavailable | Cancelled

  /** How the first critical section of a lookup ends. */
  datatype Lookup = Hit(found: CachedKey) | Miss(error: ResolveError)
    | NeedsRefresh(observedAttempt: nat, reason: Reason)

  /** How the entry section of a refresh ends. */
  datatype Entry = Joined(flightNumber: nat) | Settled(lastError: Option<FetchError>) | Leads(newFlight: nat)

  /** How the first critical section after a signature failure ends. */
  datatype Retry =
    | RetryWith(found: CachedKey)
    | RetryFails(error: ResolveError)
    | NoRetry
    | RetryRefresh(observedAttempt: nat, freshBefore: bool)

  function Later(left: Time, right: Time): Time {
    if left < right then right else left
  }

  function Gate(c: Cache, reason: Reason): Time {
    match reason
    case Required => c.nextRequired
    case Proactive => c.nextProactive
    case Reactive => c.nextReactive
  }

  function RecordCooldown(c: Cache, config: Config, reason: Reason, attemptedAt: Time): Cache {
    if attemptedAt == ZERO_TIME then c
    else
      var next := Later(Gate(c, reason), attemptedAt + config.cooldown);
      match reason
      case Required => c.(nextRequired := next)
      case Proactive => c.(nextProactive := next)
      case Reactive => c.(nextReactive := next)
  }

  /** First section of resolve: reads only. */
  function Look(c: Cache, now: Time, ref: KeyReference): Lookup {
    var found := ref in c.keys;
    var isFresh := c.Fresh(now);
    var due := isFresh && now >= c.refreshAt;
    var reason := if isFresh && found then Proactive else if isFresh then Reactive else Required;
    var allowed := now >= Gate(c, reason);
    if found && isFresh && (!due || !allowed) then Hit(CachedKey(c.keys[ref], c.generation, false, ZERO_TIME))
    else if !found && isFresh && !allowed then Miss(NoMatchingKey)
    else if !isFresh && !allowed && c.attempt > 0 then Miss(KeySourceUnavailable)
    else NeedsRefresh(c.attempt, reason)
  }

  /** First section of resolveAfterSignatureFailure. */
  function LookAgain(c: Cache, config: Config, now: Time, ref: KeyReference, previous: CachedKey): (Cache, Retry) {
    if c.generation != previous.generation then
      (c, if ref in c.keys && c.Fresh(now) then RetryWith(CachedKey(c.keys[ref], c.generation, false, ZERO_TIME))
          else if c.Fresh(now) then RetryFails(NoMatchingKey)
          else RetryFails(KeySourceUnavailable))
    else if now < c.nextProactive then
      (RecordCooldown(c, config, Reactive, c.nextProactive - config.cooldown), NoRetry)
    else if previous.refreshAttempted then
      (RecordCooldown(c, config, Reactive, previous.refreshAttemptedAt), NoRetry)
    else if now < c.nextReactive then (c, NoRetry)
    else (c, RetryRefresh(c.attempt, c.Fresh(now)))
  }

  /** The bookkeeping of a caller that arrives after the attempt it observed was superseded. */
  function SettleLate(c: Cache, config: Config, reason: Reason): Cache {
    var c1 := if c.lastAttemptError.Some? || reason == Reactive
              then RecordCooldown(c, config, reason, c.lastAttemptAt) else c;
    if c.lastAttemptError.Some? && reason == Proactive
    then RecordCooldown(c1, config, Required, c.lastAttemptAt) else c1
  }

  /** Entry section of refresh: join the flight, settle with the last attempt, or lead a new flight. */
  function EnterRefresh(c: Cache, config: Config, observedAttempt: nat, reason: Reason): (Cache, Entry) {
    match c.flight
    case Some(flight) =>
      var joined := flight.AddReason(reason);
      (c.(flight := Some(joined.(followers := joined.followers + 1))), Joined(c.attempt))
    case None =>
      if c.attempt != observedAttempt then (SettleLate(c, config, reason), Settled(c.lastAttemptError))
      else
        (c.(flight := Some(Flight(false, false, false, 0).AddReason(reason)), attempt := c.attempt + 1),
         Leads(c.attempt + 1))
  }

  /** Installs a fetched set and opens the required and proactive gates. */
  function Install(c: Cache, config: Config, now: Time, keys: map<KeyReference, Key>): Cache {
    c.(keys := keys, generation := c.generation + 1, freshUntil := now + config.freshness,
       refreshAt := now + config.freshness - config.refreshAhead,
       nextRequired := ZERO_TIME, nextProactive := ZERO_TIME)
  }

  /** The gates that the end of a flight moves, by the reasons that joined it. */
  function Cooldowns(c: Cache, config: Config, flight: Flight, now: Time, failed: bool): Cache {
    var c1 := if failed && (flight.required || flight.proactive) then RecordCooldown(c, config, Required, now) else c;
    var c2 := if failed && flight.proactive then RecordCooldown(c1, config, Proactive, now) else c1;
    if flight.reactive then RecordCooldown(c2, config, Reactive, now) else c2
  }

  /** Closing section of the flight that the caller leads. */
  function FinishFlight(c: Cache, config: Config, now: Time, result: FetchResult): Cache
    requires c.flight.Some?
  {
    var c1 := if result.Fetched? then Install(c, config, now, result.keys) else c;
    var c2 := Cooldowns(c1.(lastAttemptAt := now), config, c.flight.value, now, result.FetchFailed?);
    c2.(lastAttemptError := if result.FetchFailed? then Some(result.error) else None, flight := None)
  }

  /** The second section of resolve, after its refresh returned. */
  function LookAfterRefresh(c: Cache, now: Time, ref: KeyReference): Lookup {
    if ref in c.keys && c.Fresh(now) then Hit(CachedKey(c.keys[ref], c.generation, true, c.lastAttemptAt))
    else Miss(if c.Fresh(now) then NoMatchingKey else KeySourceUnavailable)
  }

  /** The second section of resolveAfterSignatureFailure, after its refresh returned. */
  function LookAgainAfterRefresh(c: Cache, now: Time, ref: KeyReference, succeeded: bool, freshBefore: bool): Retry {
    if succeeded && ref in c.keys && c.Fresh(now) then RetryWith(CachedKey(c.keys[ref], c.generation, false, ZERO_TIME))
    else RetryFails(if c.Fresh(now) && (succeeded || freshBefore) then NoMatchingKey else KeySourceUnavailable)
  }

  /** The flight object shared by its leader and its followers. */
  class RefreshFlight {
    var closed: bool
    var error: Option<FetchError>
    var followers: nat
    var required: bool
    var proactive: bool
    var reactive: bool

    function View(): Flight
      reads this
    {
      Flight(required, proactive, reactive, followers)
    }

    constructor ()
      ensures !closed && View() == Flight(false, false, false, 0)
    {
      closed, error, followers := false, None, 0;
      required, proactive, reactive := false, false, false;
    }

    method AddReason(reason: Reason)
      modifies this`required, this`proactive, this`reactive
      ensures View() == old(View()).AddReason(reason)
    {
      match reason
      case Required => required := true;
      case Proactive => proactive := true;
      case Reactive => reactive := true;
    }
  }

  /** The cache object. Each method is one section run with the mutex held. */
  class SharedKeyCache {
    const config: Config
    var keys: map<KeyReference, Key>
    var generation: nat
    var freshUntil: Time
    var refreshAt: Time
    var nextRequired: Time
    var nextProactive: Time
    var nextReactive: Time
    var attempt: nat
    var lastAttemptAt: Time
    var lastAttemptError: Option<FetchError>
    var flight: RefreshFlight?

    ghost function Footprint(): set<object>
      reads this
    {
      if flight == null then {this} else {this, flight}
    }

    ghost function View(): Cache
      reads this, Footprint()
    {
      Cache(keys, generation, freshUntil, refreshAt, nextRequired, nextProactive, nextReactive, attempt,
            lastAttemptAt, lastAttemptError, if flight == null then None else Some(flight.View()))
    }

    constructor (config: Config)
      ensures View() == EMPTY && this.config == config && flight == null
    {
      this.config := config;
      keys, generation, freshUntil, refreshAt := map[], 0, ZERO_TIME, ZERO_TIME;
      nextRequired, nextProactive, nextReactive := ZERO_TIME, ZERO_TIME, ZERO_TIME;
      attempt, lastAttemptAt, lastAttemptError, flight := 0, ZERO_TIME, None, null;
    }

    method RecordCooldownLocked(reason: Reason, attemptedAt: Time)
      modifies this`nextRequired, this`nextProactive, this`nextReactive
      ensures View() == RecordCooldown(old(View()), config, reason, attemptedAt)
    {
      if attemptedAt == ZERO_TIME {
        return;
      }
      var next := attemptedAt + config.cooldown;
      match reason
      case Required =>
        if nextRequired < next { nextRequired := next; }
      case Proactive =>
        if nextProactive < next { nextProactive := next; }
      case Reactive =>
        if nextReactive < next { nextReactive := next; }
    }

    method ResolveSection(now: Time, ref: KeyReference) returns (outcome: Lookup)
      ensures outcome == Look(View(), now, ref)
    {
      var found := ref in keys;
      var isFresh := |keys| > 0 && now < freshUntil;
      var due := isFresh && now >= refreshAt;
      var reason := Required;
      var allowed := now >= nextRequired;
      if isFresh && found {
        reason := Proactive;
        allowed := now >= nextProactive;
      } else if isFresh {
        reason := Reactive;
        allowed := now >= nextReactive;
      }
      if found && isFresh && (!due || !allowed) {
        return Hit(CachedKey(keys[ref], generation, false, ZERO_TIME));
      }
      if !found && isFresh && !allowed {
        return Miss(NoMatchingKey);
      }
      if !isFresh && !allowed && attempt > 0 {
        return Miss(KeySourceUnavailable);
      }
      return NeedsRefresh(attempt, reason);
    }

    method ResolveAfterRefreshSection(now: Time, ref: KeyReference) returns (outcome: Lookup)
      ensures outcome == LookAfterRefresh(View(), now, ref)
    {
      var isFresh := |keys| > 0 && now < freshUntil;
      if isFresh && ref in keys {
        return Hit(CachedKey(keys[ref], generation, true, lastAttemptAt));
      }
      return Miss(if isFresh then NoMatchingKey else KeySourceUnavailable);
    }

    method RetryAfterRefreshSection(now: Time, ref: KeyReference, succeeded: bool, freshBefore: bool)
      returns (outcome: Retry)
      ensures outcome == LookAgainAfterRefresh(View(), now, ref, succeeded, freshBefore)
    {
      var isFresh := |keys| > 0 && now < freshUntil;
      if !succeeded {
        return RetryFails(if freshBefore && isFresh then NoMatchingKey else KeySourceUnavailable);
      }
      if isFresh && ref in keys {
        return RetryWith(CachedKey(keys[ref], generation, false, ZERO_TIME));
      }
      return RetryFails(if isFresh then NoMatchingKey else KeySourceUnavailable);
    }

    method RetrySection(now: Time, ref: KeyReference, previous: CachedKey) returns (outcome: Retry)
      modifies this`nextRequired, this`nextProactive, this`nextReactive
      ensures (View(), outcome) == LookAgain(old(View()), config, now, ref, previous)
    {
      var isFresh := |keys| > 0 && now < freshUntil;
      if generation != previous.generation {
        if ref in keys && isFresh {
          return RetryWith(CachedKey(keys[ref], generation, false, ZERO_TIME));
        }
        return RetryFails(if isFresh then NoMatchingKey else KeySourceUnavailable);
      }
      if now < nextProactive {
        RecordCooldownLocked(Reactive, nextProactive - config.cooldown);
        return NoRetry;
      }
      if previous.refreshAttempted {
        RecordCooldownLocked(Reactive, previous.refreshAttemptedAt);
        return NoRetry;
      }
      if now < nextReactive {
        return NoRetry;
      }
      return RetryRefresh(attempt, isFresh);
    }

    method EnterRefreshSection(observedAttempt: nat, reason: Reason) returns (entry: Entry)
      modifies Footprint()
      ensures (View(), entry) == EnterRefresh(old(View()), config, observedAttempt, reason)
      ensures if old(flight) == null && entry.Leads? then fresh(flight) else flight == old(flight)
    {
      if flight != null {
        flight.AddReason(reason);
        flight.followers := flight.followers + 1;
        return Joined(attempt);
      }
      if attempt != observedAttempt {
        var lastError := lastAttemptError;
        if lastError.Some? || reason == Reactive {
          RecordCooldownLocked(reason, lastAttemptAt);
        }
        if lastError.Some? && reason == Proactive {
          RecordCooldownLocked(Required, lastAttemptAt);
        }
        return Settled(lastError);
      }
      var leading := new RefreshFlight();
      leading.AddReason(reason);
      flight := leading;
      attempt := attempt + 1;
      return Leads(attempt);
    }

    method CooldownsLocked(now: Time, failed: bool)
      requires flight != null
      modifies this`nextRequired, this`nextProactive, this`nextReactive
      ensures View() == Cooldowns(old(View()), config, old(flight.View()), now, failed)
    {
      hide RecordCooldown;
      if failed {
        if flight.required || flight.proactive {
          RecordCooldownLocked(Required, now);
        }
        if flight.proactive {
          RecordCooldownLocked(Proactive, now);
        }
      }
      if flight.reactive {
        RecordCooldownLocked(Reactive, now);
      }
    }

    method FinishFlightSection(now: Time, result: FetchResult)
      requires flight != null
      modifies Footprint()
      ensures View() == FinishFlight(old(View()), config, now, result)
      ensures old(flight).closed
      ensures old(flight).error == if result.FetchFailed? then Some(result.error) else None
    {
      hide Cooldowns;
      if result.Fetched? {
        keys := result.keys;
        generation := generation + 1;
        freshUntil := now + config.freshness;
        refreshAt := freshUntil - config.refreshAhead;
        nextRequired := ZERO_TIME;
        nextProactive := ZERO_TIME;
      }
      lastAttemptAt := now;
      CooldownsLocked(now, result.FetchFailed?);
      lastAttemptError := if result.FetchFailed? then Some(result.error) else None;
      flight.error := lastAttemptError;
      flight.closed := true;
      flight := null;
    }
  }
}
