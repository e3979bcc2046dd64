# Veer: the deterministic core, modelled and proved in Dafny

Veer is a control plane whose core is deterministic domain logic. This project models six of its components and proves
what they promise, for every input, every run and every interleaving.

* **OIDC key cache** (`KeyCache`, `Authenticate`, `RefreshThrottle`, `HoldOff`, `Gates`, `Boardings`). Every critical
  section of the cache is a function on a value and a method of a class proved against it. Any number of concurrent
  `Authenticate` calls then run as threads over those sections, with the fetch, the clock and the signature check free to
  do anything. `Gates` says what every lookup answers from the history of the run alone.
* **Privileged elevation ledger** (`Ledger`, `LedgerRuns`, `LedgerMeaning`). The object's methods are proved against
  functions on its state, and the theorems hold over every sequence of operations, with clock samples taken outside the
  lock and processed in any order. `LedgerMeaning` says what every operation answers from the grants, receipts and times of
  the run.
* **Audit hash chain** (`Framing`, `AuditChain`, `ChainMeaning`, `SegmentScanner`, `SegmentText`). Length-framed hashing,
  building and verifying segments, the streams they belong to, the byte scanner that counts records, and the canonical text.
* **Admission** (`Number`, `NumberMeaning`, `Pointer`, `Candidates`, `JsonWalk`, `JsonOrder`, `SchemaFaults`,
  `SchemaCollect`, `SchemaDecode`, `IntentMeaning`, `StatusMeaning`). The exact number parser, JSON pointers under two
  bounds, the iterative token walk, and the fault collectors with the typed decoders that run after them. `IntentMeaning`
  and `StatusMeaning` encode typed documents and prove that the schema accepts these encodings and nothing else.
* **Authorization** (`RoleMatrix`, `RoleMeaning`, `Ordering`, `PolicySet`, `PolicyVersion`). What the roles may do, policies
  compiled to role masks, the evaluator, and the version digest of a policy set.
* **HTTP trailer guard** (`TrailerGuard`, `TrailerFilter`). The Read and Close monitor with its condition variable, and the
  in-place filter of trailer declarations.

Conventions. Times are integers. A hash is a parameter that returns 32 bytes; it is never taken to be injective, and where a
theorem needs it the theorem asks that the hash does not collide on the finite set of messages it names. Code of other
packages and libraries (identifier and identity rules, the hierarchy, event validation, signature checks, the time package)
comes in as function parameters. Go maps are read in any order. Strings are byte sequences where they are hashed or compared
bytewise, and sequences of Unicode scalar values in admission.

`Wrappers` holds the option type, and `Hierarchy` the kinds that admission and authorization share.

Three promises turn out to be conditional. Each has its exact condition, and runs or numbers that fail it.

* Reactive fetches are a cooldown apart. Under a clock that never steps back this holds for two flights if and only if the
  second was not decided during the first, or was decided a cooldown after the first had finished fetching
  (`HoldOff.ReactiveFetchesAreSpacedExactly`). `RefreshThrottle.OverlapBreaksSpacing` gives a failing run for every
  configuration.
* A failed proactive fetch holds off required and proactive ones for a cooldown, until a reactive fetch succeeds. Under such a
  clock this holds of all later flights if and only if the very next one does not jump in the same way
  (`HoldOff.FailedProactiveHoldsOffExactly`). `HoldOff.JumpBreaksHoldOff` gives a failing run for every configuration.
* The number parser clamps exponents, which is exact for every number of a shape if and only if the shape is safe
  (`Number.ExactExactlyOnSafeShapes`).

When calls do not overlap, the first two hold without exception (`RefreshThrottle.SerialReactiveFetchesAreSpaced`,
`HoldOff.SerialFailedProactiveHoldsOff`).

## Model

| member | source | states |
|---|---|---|
| `KeyCache.RefreshFlight.AddReason` | internal/adapters/identity/oidc/cache.go:405-414 | joining a flight adds the caller's reason to those the flight already has |
| `KeyCache.SharedKeyCache.RecordCooldownLocked` | internal/adapters/identity/oidc/cache.go:417-436 | each reason moves its own gates forward only, to one cooldown after the attempt |
| `KeyCache.SharedKeyCache.ResolveSection` | internal/adapters/identity/oidc/cache.go:162-189 | the lookup section: a hit, a refusal behind a gate, or the reason and attempt number of the refresh needed |
| `KeyCache.SharedKeyCache.RetrySection` | internal/adapters/identity/oidc/cache.go:251-284 | the section after a signature failure: a newer key at once, no retry, a refusal, or a refresh |
| `KeyCache.SharedKeyCache.EnterRefreshSection` | internal/adapters/identity/oidc/cache.go:321-364 | a caller joins the flight, leads a new one, or finds that the attempt it saw is over |
| `KeyCache.SharedKeyCache.FinishFlightSection` | internal/adapters/identity/oidc/cache.go:367-402 | the end of a fetch: the new set and generation, or the gates of every reason that joined |
| `KeyCache.SharedKeyCache.ResolveAfterRefreshSection` | internal/adapters/identity/oidc/cache.go:190-239 | the second lookup of resolve, after the refresh |
| `KeyCache.SharedKeyCache.RetryAfterRefreshSection` | internal/adapters/identity/oidc/cache.go:285-314 | the second lookup after a signature failure |
| `Authenticate.RunKeeps` | internal/adapters/identity/oidc/cache.go:153-403 | the invariant of cache, flight log and every call, kept by every interleaving of sections, fetches and clock readings |
| `Authenticate.RetryKeyIsNewer` | internal/adapters/identity/oidc/cache.go:241-403 | in every interleaving a key handed out after a signature failure has a strictly greater generation than the key that failed, whether its caller led, joined or came after the refresh |
| `Authenticate.KeysAreAuthentic` | internal/adapters/identity/oidc/cache.go:153-239 | every key returned with a generation is the entry of its reference in the set installed at that generation, unexpired at the clock reading used |
| `Authenticate.RefreshesAtMostOnce` | internal/adapters/identity/oidc/verifier.go:66-89 | one Authenticate call enters refresh at most once, its retry included |
| `Authenticate.FlightsNeverOverlap` | internal/adapters/identity/oidc/cache.go:316-403 | two calls are never in a fetch together, and a flight starts only after every earlier one closed |
| `Authenticate.OneFetchPerObservedAttempt` | internal/adapters/identity/oidc/cache.go:340-364 | of all callers that observed the same attempt number at most one started a fetch |
| `RefreshThrottle.ReactiveFetchesAreSpaced` | internal/adapters/identity/oidc/cache.go:267-283 | in every interleaving a reactive fetch is decided at least one cooldown after the end of every earlier reactive flight that was not still running at the decision |
| `RefreshThrottle.OverlapBreaksSpacing` | internal/adapters/identity/oidc/cache.go:162-189 | for every configuration there is a run in which a caller that decided during a flight fetches again within the cooldown |
| `RefreshThrottle.SerialReactiveFetchesAreSpaced` | internal/adapters/identity/oidc/cache.go:340-436 | when calls do not overlap, reactive fetches are at least one cooldown apart |
| `RefreshThrottle.FailedProactiveFetchHoldsOff` | internal/adapters/identity/oidc/cache.go:367-436 | under any clock, even one that steps back: until a fetch succeeds no required or proactive fetch is decided within the cooldown of a failed proactive one, except by a caller that decided while it ran |
| `RefreshThrottle.SerialHoldOffUntilSuccess` | internal/adapters/identity/oidc/cache.go:340-436 | the same under any clock without the exception when calls do not overlap |
| `HoldOff.SerialFailedProactiveHoldsOff` | internal/adapters/identity/oidc/cache.go:340-436 | when calls do not overlap and the clock never steps back, no required or proactive fetch is decided within the cooldown of a failed proactive one unless a reactive fetch succeeds in between, however many others do |
| `HoldOff.HoldsOffUnlessJumped` | internal/adapters/identity/oidc/cache.go:321-436 | the same in every interleaving in which the next flight was not decided during the failing fetch or within a cooldown of its end |
| `HoldOff.FailedProactiveHoldsOffExactly` | internal/adapters/identity/oidc/cache.go:321-436 | all later flights are held off if and only if the next flight does not jump |
| `HoldOff.JumpBreaksHoldOff` | internal/adapters/identity/oidc/cache.go:162-189 | for every configuration there is a run in which a caller that decided during a failing proactive fetch fetches again at once |
| `HoldOff.OverlapIsApartExactly` | internal/adapters/identity/oidc/cache.go:321-402 | a leader that decided while the previous flight ran is within its cooldown, unless that fetch had ended a cooldown before and only its closing was outstanding |
| `HoldOff.ReactiveFetchesAreSpacedExactly` | internal/adapters/identity/oidc/cache.go:267-283 | two reactive fetches are a cooldown apart if and only if the second was not decided during the first, or late in that sense |
| `HoldOff.RunTimed` | internal/adapters/identity/oidc/cache.go:153-403 | in every interleaving with a forward clock: a required or proactive decision lies after the last success before it, a flight ends after its decision, and a decision knows how it stands to the fetch in progress |
| `RefreshThrottle.GatesNeverRunAhead` | internal/adapters/identity/oidc/cache.go:417-436 | with a clock that never steps back no gate passes one cooldown after the last attempt, however many unknown keys or bad signatures arrive |
| `Gates.RunAccounted` | internal/adapters/identity/oidc/cache.go:153-436 | in every interleaving the newest installed set and the three gates are what the history of installs, ended fetches, late callers, missing keys and failed signatures makes them |
| `Gates.GatesCloseExactly` | internal/adapters/identity/oidc/cache.go:340-436 | in every run a fetch of a reason is held off at a time if and only if some event that concerns it happened less than a cooldown before and no success reopened the gate since |
| `Gates.FirstLookupExactly` | internal/adapters/identity/oidc/cache.go:162-189 | in every reachable state: the newest key if and only if its set is unexpired and lists it, and is not due or held off; each refusal if and only if its fetch is held off; otherwise a refresh for the reason that fits |
| `Gates.RetryExactly` | internal/adapters/identity/oidc/cache.go:251-284 | in every reachable state: against a newer set the key if and only if that set is unexpired and lists it, and the refusal says what is missing, whatever the gates; against the same set an end if and only if an attempt cools down or the key came from one, else a refresh |
| `Gates.SecondLookupExactly` | internal/adapters/identity/oidc/cache.go:190-314 | the answer after a refresh, by if-and-only-if from the newest set and the outcome of the refresh, for resolving and for retrying |
| `Gates.EntryExactly` | internal/adapters/identity/oidc/cache.go:321-364 | a caller joins if and only if a flight is running, leads if and only if none is and none began since it looked, and otherwise takes over the outcome of the last flight |
| `Gates.WaitingExactly` | internal/adapters/identity/oidc/cache.go:322-338 | a follower goes on if and only if its flight is closed, with the outcome of that very flight |
| `Gates.CancellationExactly` | internal/adapters/identity/oidc/cache.go:153-403 | a cancelled context ends a call if and only if it is about to look, waits, or comes back from a refresh that failed |
| `Boardings.ReasonsAreThoseAboard` | internal/adapters/identity/oidc/cache.go:322-414 | in every run a closed flight carries a reason if and only if a caller with that reason led or joined it |
| `Ledger.Prepare` | internal/core/domain/administration/ledger.go:98-150 | a request reaches the lock if and only if it is valid, nothing was cancelled and its proof is in order, as a verified proof of that very request |
| `Ledger.ElevationLedger.TakeSample` | internal/core/domain/administration/ledger.go:331-347 | a clock sample is numbered outside the lock, one number for each until the counter is exhausted |
| `Ledger.ElevationLedger.ObserveClockLocked` | internal/core/domain/administration/ledger.go:321-329 | a time under the lock moves the mark forward or is refused |
| `Ledger.ElevationLedger.ObserveIssuanceLocked` | internal/core/domain/administration/ledger.go:352-389 | a sample that arrives late is raised to the mark, the newest one behind the mark is refused |
| `Ledger.ElevationLedger.IssueLocked` | internal/core/domain/administration/ledger.go:151-203 | the whole new state of an issue: tombstone and grant together, or neither, with each refusal in its order |
| `Ledger.ElevationLedger.SettleLocked` | internal/core/domain/administration/ledger.go:391-407 | the record of the very grant is found and expires when its time has come |
| `Ledger.ElevationLedger.StateAtLocked` | internal/core/domain/administration/ledger.go:207-230 | the state of a grant at a time, expiry included |
| `Ledger.ElevationLedger.ConsumeLocked` | internal/core/domain/administration/ledger.go:235-279 | the whole new state of a consumption, its receipt and each refusal |
| `Ledger.ElevationLedger.RevokeLocked` | internal/core/domain/administration/ledger.go:283-319 | the whole new state of a revocation, its receipt and each refusal |
| `LedgerRuns.MarkIsGreatestTime` | internal/core/domain/administration/ledger.go:321-389 | over every run the mark is the greatest of all valid times processed under the lock |
| `LedgerRuns.GrantsAreIssuedAtTheMark` | internal/core/domain/administration/ledger.go:138-202 | a grant carries the greatest of all times processed up to its issue over the whole run, its own sample included |
| `LedgerRuns.RegressedExactlyWhenNewestAndBehind` | internal/core/domain/administration/ledger.go:352-389 | a sample is refused as regressed if and only if it is numbered after all processed ones and lies behind the mark |
| `LedgerRuns.TombstonesMatchGrants` | internal/core/domain/administration/ledger.go:165-202 | in every reachable state tombstones and grants are in bijection, at most 1000 |
| `LedgerRuns.IssueMovesBothIndexes` | internal/core/domain/administration/ledger.go:151-203 | in every reachable state an issue adds one new tombstone and one new grant, or on failure changes neither index |
| `LedgerRuns.ProofIsSpentForever` | internal/core/domain/administration/ledger.go:165-202 | a proof that was spent on a grant is refused after every continuation of the run |
| `LedgerRuns.OneReceiptPerGrant` | internal/core/domain/administration/ledger.go:235-319 | over a whole run a grant yields at most one receipt, of either kind |
| `LedgerRuns.TerminalForever` | internal/core/domain/administration/ledger.go:402-422 | once terminal, a record with its state and time is the same after every continuation |
| `LedgerRuns.ReceiptChecksNeverFire` | internal/core/domain/administration/ledger.go:258-316 | in every reachable state a mismatch is reported exactly for a foreign grant, so the defensive receipt checks are dead code |
| `LedgerRuns.ReceiptsAreValid` | internal/core/domain/administration/grant.go:92-141 | the receipts built from a sound state pass the validity checks |
| `LedgerMeaning.RunFiles` | internal/core/domain/administration/ledger.go:98-319 | in every run the records are just those of the grants handed out, under the directory of the start |
| `LedgerMeaning.StateAtExactly` | internal/core/domain/administration/ledger.go:207-230 | over every run: Consumed or Revoked if and only if such a receipt was given, else Active if and only if the time lies before the expiry; each refusal if and only if its reason holds in the history |
| `LedgerMeaning.ConsumeExactly` | internal/core/domain/administration/ledger.go:235-279 | over every run Consume succeeds if and only if StateAt would answer Active and action and target are those of the grant; the receipt names grant and time, and each error is determined |
| `LedgerMeaning.RevokeExactly` | internal/core/domain/administration/ledger.go:283-319 | over every run Revoke succeeds if and only if StateAt would answer Active, with each error determined |
| `LedgerMeaning.NormalizeExactly` | internal/core/domain/administration/safety.go:43-52 | a time is cut to the millisecond before it, and accepted if and only if it is not zero and lies in the years 1 to 9999 |
| `LedgerMeaning.ClockExactly` | internal/core/domain/administration/ledger.go:352-389 | over every run a sample gives the greatest of its own time and all processed ones, or is refused if and only if it has no time or is the newest and behind |
| `LedgerMeaning.IssueExactly` | internal/core/domain/administration/ledger.go:138-203 | over every run the answer to an issue is the requested grant at that time, or the error of the first thing in the history that speaks against it |
| `LedgerMeaning.IssueRestsOn` | internal/core/domain/administration/ledger.go:98-203 | an issue succeeds if and only if nothing was cancelled, the clock is accepted, the administrator is registered as requested, the proof is at most five minutes old and never used, the ID is new, and there is room; the principal is the registered person and every field of the grant is the request's |
| `LedgerMeaning.EveryGrantIsBounded` | internal/core/domain/administration/grant.go:28-41 | every grant of every run names a registered person, lasts at most fifteen minutes, and has the target shape of its action |
| `Framing.FramePrefix` | internal/core/domain/audit/chain.go:446-451 | a length-prefixed value at the front of a message can be read back whatever follows |
| `Framing.FramesInjective` | internal/core/domain/audit/chain.go:441-451 | a list of frames determines its values even when the lists differ in length |
| `AuditChain.RecordMessageInjective` | internal/core/domain/audit/chain.go:428-439 | the message behind a record digest determines the predecessor and the event |
| `AuditChain.DomainsAreSeparate` | internal/core/domain/audit/chain.go:420-439 | no record message is a genesis message |
| `ChainMeaning.GenesisMessageInjective` | internal/core/domain/audit/chain.go:420-426 | the message behind a genesis digest determines the stream, workspace included |
| `ChainMeaning.GenesisBelongsToOneStream` | internal/core/domain/audit/chain.go:59-68 | without a collision the genesis digest of a stream makes a valid checkpoint at zero for that stream alone, and at no later number of it |
| `AuditChain.PreflightEvents` | internal/core/domain/audit/chain.go:349-374 | up to 1000 events are let through exactly when they continue the checkpoint, never refused for size; otherwise the error is that of the first event with an objection, and what is let through is within the estimate |
| `AuditChain.EstimateBound` | internal/core/domain/audit/vocabulary.go:16-22 | a thousand events of the greatest size are within the segment limit |
| `AuditChain.NewSegment` | internal/core/domain/audit/chain.go:153-175 | an invalid checkpoint, too many events, the first objection of the preflight, or exactly what appending in turn gives, its failure included |
| `AuditChain.AppendAllSplits` | internal/core/domain/audit/chain.go:104-175 | building over a concatenation is building the parts in turn |
| `AuditChain.AppendAllSucceeds` | internal/core/domain/audit/chain.go:59-134 | events that continue a valid checkpoint always chain, and every checkpoint on the way is valid, because no record digest is the genesis digest |
| `AuditChain.ValidateStructure` | internal/core/domain/audit/chain.go:376-418 | the structure check passes exactly the well-structured lists and names the first position that fails |
| `AuditChain.VerifySegment` | internal/core/domain/audit/chain.go:214-257 | success exactly when the records are well structured and chain from the checkpoint to the expected head; otherwise the error is that of the checkpoint, of the first bad position, of the first link or of the head, in this order |
| `AuditChain.BuiltSegmentVerifies` | internal/core/domain/audit/chain.go:153-257 | a built segment verifies to the head it was returned with |
| `AuditChain.ContinuationBuildsAndVerifies` | internal/core/domain/audit/chain.go:104-257 | events that continue a checkpoint can be built and the result verifies to a valid head |
| `ChainMeaning.AppendExactly` | internal/core/domain/audit/chain.go:104-134 | Append succeeds if and only if the event continues a valid checkpoint; the record holds the event and both ends of its link, and each error has its exact cause |
| `ChainMeaning.VerifiesExactlyWhatIsBuilt` | internal/core/domain/audit/chain.go:153-257 | without a collision records verify from a checkpoint to a head if and only if appending their events builds these very records and that head |
| `ChainMeaning.WellStructuredExactly` | internal/core/domain/audit/chain.go:376-418 | the structure check passes if and only if the records are valid one by one and chain from some valid checkpoint |
| `ChainMeaning.OnePredecessor` | internal/core/domain/audit/chain.go:214-257 | a non-empty segment verifies from one checkpoint at most, and to one head |
| `ChainMeaning.SegmentsStayInTheirStream` | internal/core/domain/audit/chain.go:214-257 | what verifies from the beginning of one stream verifies from the beginning of no other, nor from a beginning that borrows the digest |
| `AuditChain.OnlyTheFirstLinkCanFail` | internal/core/domain/audit/chain.go:214-257 | once the structure check passes, verification succeeds if and only if the first record links to the checkpoint |
| `AuditChain.SameHeadSameRecords` | internal/core/domain/audit/chain.go:428-451 | by induction backwards along the chain, equal heads mean equal records |
| `AuditChain.TamperEvident` | internal/core/domain/audit/chain.go:214-257 | two segments that verify from the same predecessor to the same checkpoint are the same records, unless two of the hashed messages collide |
| `SegmentScanner.SkipRecord` | internal/core/domain/audit/chain.go:499-533 | the inner loop ends at the brace that closes the record, or nowhere |
| `SegmentScanner.CountRecords` | internal/core/domain/audit/chain.go:490-551 | the outer loop counts record after record and ends on every input |
| `SegmentScanner.PreflightSegmentCount` | internal/core/domain/audit/chain.go:481-552 | the scanner computes the count and outcome of its specification |
| `SegmentScanner.PreflightExact` | internal/core/domain/audit/chain.go:481-552 | n records are reported if and only if the data is the prefix, n balanced chunks with commas between and the closing, with n within the limit; balanced means a depth outside strings that is positive up to the last byte |
| `SegmentScanner.ClosedExactlyWhenBalanced` | internal/core/domain/audit/chain.go:499-533 | the inner loop closes a chunk with its last byte if and only if the chunk, cut into strings and other bytes, is balanced |
| `SegmentScanner.RecordsAreCounted` | internal/core/domain/audit/chain.go:481-552 | on the text of any list of JSON objects the count is exact, whatever nesting, strings and escapes they hold |
| `SegmentText.EncodingIsWithinEstimate` | internal/core/domain/audit/chain.go:260-283 | the canonical text is never longer than the preflight estimate, so 256 bytes dominate the framing of a record |
| `SegmentText.StructuredSegmentFits` | internal/core/domain/audit/chain.go:260-283 | every well-structured segment encodes within the byte limit |
| `SegmentText.SegmentIsCounted` | internal/core/domain/audit/chain.go:287-336 | on the canonical text of any segment the scanner reports its number of records |
| `SegmentText.DigestTextInjective` | internal/core/domain/audit/digest.go:15-20 | the text of a digest, prefix and unpadded URL-safe base64, determines the digest |
| `Number.DecimalDigits` | internal/core/domain/admission/number.go:134-141 | digits only |
| `Number.ClampedDecimalExponent` | internal/core/domain/admission/number.go:101-132 | accepted exactly for grammatical exponents, with the smaller of the value and the limit, sign kept |
| `Number.ScaleDigits` | internal/core/domain/admission/number.go:62-98 | the one 64-bit integer the digits and scale denote, or nothing when there is none, with no overflow on the way |
| `Number.NonNegativeInt64` | internal/core/domain/admission/number.go:12-99 | for every text, v is reported exactly when the text is a spelling of a number whose clamped meaning is the integer v in 0..2^63-1 |
| `Number.SpellingIsUnique` | internal/core/domain/admission/number.go:17-46 | no text spells two numbers of the grammar in section 6 of RFC 8259 |
| `Number.ClampIsHarmless` | internal/core/domain/admission/number.go:101-132 | for safe shapes the clamp never changes the meaning, whatever the exponent |
| `Number.ExactExactlyOnSafeShapes` | internal/core/domain/admission/number.go:12-132 | the parser is exact for all numbers with given digit counts before and after the point if and only if those counts are safe |
| `Number.ShortTextsAreExact` | internal/core/domain/admission/number.go:12-132 | for texts of at most MaxRawBytes - 19 characters v is reported exactly when the exact value is the integer v |
| `Number.YieldsOnce` | internal/core/domain/admission/number.go:12-99 | a text yields one value at most |
| `Number.DecimalYields` | internal/core/domain/admission/number.go:12-99 | every 64-bit value is yielded by its decimal spelling |
| `NumberMeaning.NumbersExactly` | internal/core/domain/admission/number.go:12-60 | the numbers of the grammar are exactly the texts that an automaton over the characters reads to a complete place |
| `NumberMeaning.SignedYields` | internal/core/domain/admission/number.go:52-60 | a sign leaves nothing but zero |
| `NumberMeaning.PointYields` | internal/core/domain/admission/number.go:30-46 | digits after the point are all zeros, or the number is refused |
| `NumberMeaning.ExponentYields` | internal/core/domain/admission/number.go:62-132 | an exponent multiplies by that power of ten, with or without a plus, as long as the product fits |
| `NumberMeaning.NegativeExponentYields` | internal/core/domain/admission/number.go:62-132 | a negative exponent yields v if and only if v times that power of ten is the number before it |
| `Pointer.RuneBytesAreExact` | internal/core/domain/admission/error.go:187-201 | the counted size of a rune is the length of its JSON encoding |
| `Pointer.BoundedStringMetrics` | internal/core/domain/admission/error.go:173-185 | both counts of the string, or a refusal exactly when it does not fit |
| `Pointer.FitsInJson` | internal/core/domain/admission/error.go:58-64 | the byte bound is on the JSON string that carries the path, quotes included |
| `Pointer.CountExtended` | internal/core/domain/admission/error.go:138-154 | the running counts equal a fresh count of the extended path, and the loop refuses exactly what does not fit |
| `Pointer.AppendPointer` | internal/core/domain/admission/error.go:130-171 | the exact extension of a valid path that fits, and the mark otherwise |
| `Pointer.UnescapeInvertsEscape` | internal/core/domain/admission/error.go:160-169 | the two replacement passes of section 4 of RFC 6901 undo the escaping of section 3 |
| `Pointer.TokensAreRecovered` | internal/core/domain/admission/error.go:130-171 | splitting a pointer at slashes and unescaping gives its tokens back |
| `Pointer.BuiltIsExactOrMarked` | internal/core/domain/admission/error.go:130-171 | a path built token by token is the exact pointer if and only if that fits both bounds, and the mark otherwise |
| `Pointer.BuiltIsInjective` | internal/core/domain/admission/error.go:130-171 | distinct places have distinct paths unless they do not fit |
| `Pointer.BoundedPointer` | internal/core/domain/admission/error.go:116-128 | a valid pointer that fits, and the empty path otherwise |
| `Pointer.ReportedPath` | internal/core/domain/admission/error.go:112-171 | the path reported for a place is its exact pointer when that fits, from which its tokens can be read, and empty otherwise |
| `Candidates.CandidateSet.Add` | internal/core/domain/admission/schema_candidates.go:29-36 | the one candidate kept is the least of all added so far, by bounded path and then code |
| `Candidates.CandidateSet.Failure` | internal/core/domain/admission/schema_candidates.go:38-43 | the failure reported is that least candidate |
| `Candidates.LeastIsUnique` | internal/core/domain/admission/schema_candidates.go:26-36 | a set of faults has one least element, so the order of collection does not matter |
| `JsonWalk.ScanValue` | internal/core/domain/admission/raw.go:116-153 | a value moves its parent on, is counted, meets the ceilings and opens its frame |
| `JsonWalk.ScanName` | internal/core/domain/admission/raw.go:98-114 | a member name is noted, and reported when its object has it already |
| `JsonWalk.ScanJsonStructure` | internal/core/domain/admission/raw.go:70-155 | the loop computes the walk over the tokens, and its candidates are the duplicates found |
| `JsonWalk.FramesAreBounded` | internal/core/domain/admission/raw.go:73-154 | for every token stream the stack never holds more than MaxJSONDepth + 1 frames |
| `JsonWalk.WalksValue` | internal/core/domain/admission/raw.go:76-154 | the walk over the tokens of any value, from any stack, comes to what the recursive definitions of depth, count and duplicates say |
| `JsonWalk.WalkAgrees` | internal/core/domain/admission/raw.go:70-155 | for every list of values the outcome is the recursive verdict, with the ceiling crossed first in document order |
| `JsonWalk.AcceptsExactlyWithinCeilings` | internal/core/domain/admission/raw.go:70-155 | success if and only if there is one value, no value lies deeper than 64 and there are at most 50000 values |
| `JsonOrder.OrderDoesNotMatter` | internal/core/domain/admission/raw.go:98-114 | documents that differ only in the order of members, at any depth, have the same duplicates |
| `JsonOrder.ReorderedDocumentsAreAlike` | internal/core/domain/admission/raw.go:70-155 | the walk accepts a document if and only if it accepts a reordering of it, with the same count and duplicates |
| `SchemaCollect.CollectObject` | internal/core/domain/admission/schema_candidates.go:374-406 | exactly the missing, null and unknown members are added, in any order of the map |
| `SchemaCollect.CollectString` | internal/core/domain/admission/schema_candidates.go:408-419 | the text, or the type fault |
| `SchemaCollect.CollectChecked` | internal/core/domain/admission/schema_candidates.go:421-453 | the type and value faults of a checked string member |
| `SchemaCollect.CollectNonNegativeInt64` | internal/core/domain/admission/schema_candidates.go:428-442 | a value fault exactly when the number parser reports nothing |
| `SchemaCollect.CollectOptionalDecimal` | internal/core/domain/admission/schema_candidates.go:455-469 | the faults of an optional decimal, and whether it is present |
| `SchemaCollect.CollectMetadata` | internal/core/domain/admission/schema_candidates.go:90-128 | exactly the metadata faults are added, labels in any order |
| `SchemaCollect.CollectIntentSpec` | internal/core/domain/admission/schema_candidates.go:130-149 | exactly the faults of the spec of that kind are added |
| `SchemaCollect.CollectPolicySpec` | internal/core/domain/admission/schema_candidates.go:151-189 | exactly the policy faults, binding by binding |
| `SchemaCollect.CollectScope` | internal/core/domain/admission/schema_candidates.go:191-221 | exactly the scope faults, with environment and kind checked together |
| `SchemaCollect.CollectProviderSpec` | internal/core/domain/admission/schema_candidates.go:223-246 | exactly the provider and credential reference faults |
| `SchemaCollect.CollectStatus` | internal/core/domain/admission/schema_candidates.go:248-272 | exactly the status faults of that kind |
| `SchemaCollect.CollectCondition` | internal/core/domain/admission/schema_candidates.go:283-301 | exactly the faults of one condition |
| `SchemaCollect.CollectCapability` | internal/core/domain/admission/schema_candidates.go:313-328 | exactly the faults of one capability |
| `SchemaCollect.CollectQuota` | internal/core/domain/admission/schema_candidates.go:340-371 | exactly the faults of one quota check, amounts against state included |
| `SchemaCollect.CollectList` | internal/core/domain/admission/schema_candidates.go:274-372 | a list of another type, a list too long, and the faults of each item |
| `SchemaCollect.ValidateIntentSchema` | internal/core/domain/admission/schema_candidates.go:45-67 | the failure is the least of the earlier duplicates and all intent faults, and none exactly when there are none |
| `SchemaCollect.ValidateStatusSchema` | internal/core/domain/admission/schema_candidates.go:69-88 | the same for status documents |
| `SchemaDecode.Required` | internal/core/domain/admission/schema.go:612-622 | a failure is the missing or null fault of that member |
| `SchemaDecode.RequiredChecked` | internal/core/domain/admission/schema.go:624-645 | a failure is a fault of that member, and a success is its checked text |
| `SchemaDecode.RequiredString` | internal/core/domain/admission/schema.go:624-634 | a failure is a name or type fault of that member |
| `SchemaDecode.RequiredNonNegativeInt64` | internal/core/domain/admission/schema.go:647-661 | a failure is a fault of that member, and a success is the value the number parser reports |
| `SchemaDecode.OptionalDecimal` | internal/core/domain/admission/schema.go:663-676 | a failure is a fault of that member, and a success says whether it is present |
| `SchemaDecode.RejectUnknown` | internal/core/domain/admission/schema.go:678-694 | nothing exactly when all members are allowed, else the fault of the first unknown name in sorted order |
| `SchemaDecode.DecodeMetadata` | internal/core/domain/admission/schema.go:154-198 | every failure is a collected fault, and a success says what the value says |
| `SchemaDecode.DecodeWorkspaceSpec` | internal/core/domain/admission/schema.go:200-217 | the same for workspace specs |
| `SchemaDecode.DecodePolicySpec` | internal/core/domain/admission/schema.go:219-249 | the same for policy specs |
| `SchemaDecode.DecodeBinding` | internal/core/domain/admission/schema.go:251-280 | the same for one binding |
| `SchemaDecode.DecodeScope` | internal/core/domain/admission/schema.go:282-317 | the same for scopes; an environment exactly in an environment scope |
| `SchemaDecode.DecodeEmptySpec` | internal/core/domain/admission/schema.go:319-325 | the same for kinds without a spec |
| `SchemaDecode.DecodeProviderSpec` | internal/core/domain/admission/schema.go:327-371 | the same for provider connections |
| `SchemaDecode.DecodeStatus` | internal/core/domain/admission/schema.go:373-446 | the same for both kinds of status |
| `SchemaDecode.DecodeCondition` | internal/core/domain/admission/schema.go:457-500 | the same for one condition |
| `SchemaDecode.DecodeCapability` | internal/core/domain/admission/schema.go:513-546 | the same for one capability |
| `SchemaDecode.DecodeQuota` | internal/core/domain/admission/schema.go:559-600 | the same for one quota check |
| `SchemaDecode.DecodeList` | internal/core/domain/admission/schema.go:448-602 | the same for the three lists, item by item and in order |
| `SchemaDecode.DecodeIntent` | internal/core/domain/admission/schema.go:57-107 | every failure of the typed decoder is a collected fault, so without faults it cannot fail |
| `SchemaDecode.DecodeStatusDocument` | internal/core/domain/admission/schema.go:114-151 | the same for status documents |
| `SchemaDecode.SchemaIntent` | internal/core/domain/admission/schema.go:53-108 | a typed intent if and only if there is no duplicate and no fault, and otherwise the least of them all |
| `SchemaDecode.SchemaStatus` | internal/core/domain/admission/schema.go:110-152 | the same for status documents |
| `IntentMeaning.IntentExactly` | internal/core/domain/admission/schema_candidates.go:45-246 | the collectors find no fault if and only if the document is the encoding of a well-formed typed intent, with every name, limit and enumeration written out |
| `IntentMeaning.IntentIsReadBack` | internal/core/domain/admission/schema.go:53-371 | what is decoded from the encoding of an intent is that intent |
| `IntentMeaning.DecodedIntentIsTheOne` | internal/core/domain/admission/schema.go:53-108 | an accepted document is the encoding of the intent decoded from it and of no other |
| `IntentMeaning.IntentRoundTrip` | internal/core/domain/admission/schema.go:53-108 | the encoding of every well-formed intent is accepted and decodes to it |
| `StatusMeaning.StatusExactly` | internal/core/domain/admission/schema_candidates.go:69-372 | the collectors find no fault if and only if the document says a well-formed typed status, numbers in any accepted spelling |
| `StatusMeaning.StatusIsReadBack` | internal/core/domain/admission/schema.go:110-602 | what is decoded from a document that says a status is that status |
| `StatusMeaning.DecodedStatusIsTheOne` | internal/core/domain/admission/schema.go:110-152 | an accepted status document says what is decoded from it and nothing else |
| `StatusMeaning.StatusRoundTrip` | internal/core/domain/admission/schema.go:110-152 | the encoding of every well-formed status is accepted and decodes to it |
| `StatusMeaning.SaidIsOk` | internal/core/domain/admission/schema.go:373-602 | no document says a status that is not well formed |
| `RoleMatrix.RolesAreNeverGrantedReserved` | internal/core/domain/authorization/matrix.go:141-166 | the grant tables give no role a reserved action |
| `RoleMatrix.AdministrationNeedsAdministrator` | internal/core/domain/authorization/matrix.go:58-115 | changing policies, the workspace or its members is granted to workspace administrators only |
| `RoleMeaning.RolesMeanWhatTheySay` | docs/architecture/0009-deterministic-hierarchical-authorization.md:87-130 | for every role, action and target the table allows it if and only if the documented meaning of the roles does: all read everything but policies, each kind has one keeper that changes it, operators alone retry, administrators alone manage members and policies |
| `RoleMeaning.RolesRelate` | internal/core/domain/authorization/matrix.go:58-153 | every role is allowed what a viewer is, and a resource is replaced or deleted by the keeper of its kind alone |
| `RoleMeaning.ReservedExactly` | internal/core/domain/authorization/matrix.go:24-48 | an action is reserved on all targets if and only if no role is ever allowed it; of the others only the creation of a workspace is reserved |
| `PolicySet.IdentityIndexIsExact` | internal/core/domain/authorization/membership.go:163-192 | the checks on sizes and ordered members leave no index entry without its member |
| `PolicySet.IdentityIsUnique` | internal/core/domain/authorization/membership.go:163-192 | no two members of a valid directory are the same principal |
| `PolicySet.CompilePolicyBindings` | internal/core/domain/authorization/policy_set.go:255-275 | the nested loops compute the fold of all bindings in order |
| `PolicySet.CompiledMeaning` | internal/core/domain/authorization/policy_set.go:255-275 | each mask of a member holds exactly the roles that the plain binding list gives at that scope, and no other bit |
| `PolicySet.RolesInMask` | internal/core/domain/authorization/policy_set.go:365-388 | the roles listed for a mask are those whose bit is set |
| `PolicySet.EvaluateAgrees` | internal/core/domain/authorization/evaluator.go:100-167 | Evaluate decides every valid input as the plain binding list read in the documented order of reasons, so each reason holds exactly in its own case |
| `PolicySet.AllowedExactly` | internal/core/domain/authorization/evaluator.go:100-167 | allowed if and only if the target is in the workspace, the action is not reserved, and the principal reads its own membership or a covering binding of it grants the action |
| `RoleMeaning.AllowedByMeaning` | internal/core/domain/authorization/evaluator.go:100-167 | allowed if and only if the target is in the workspace and the principal is a member that reads its own membership or has a covering role that may do it by that meaning |
| `RoleMeaning.ViewersOnlyView` | internal/core/domain/authorization/evaluator.go:100-167 | a principal with viewer bindings only is allowed, besides its own membership, exactly the covered reads of all but policies, and no change |
| `PolicySet.MorePoliciesNeverRevoke` | internal/core/domain/authorization/evaluator.go:144-166 | adding bindings never takes a permission away |
| `PolicySet.AdministrationIsHuman` | internal/core/domain/authorization/policy.go:134-254 | in every policy set an administrative action is allowed only to people bound as administrators of the whole workspace, across spec validation, reference validation, compilation and evaluation |
| `PolicySet.NothingReachesOutside` | internal/core/domain/authorization/policy.go:134-189 | every policy of a built set, and every member and environment that it binds, belongs to the workspace of the set |
| `PolicySet.SpecsAreCanonical` | internal/core/domain/authorization/policy.go:103-204 | two valid specs with the same bindings are the same list |
| `PolicyVersion.DerivePolicyVersion` | internal/core/domain/authorization/policy_set.go:316-363 | the hasher is fed the message of the specification |
| `PolicyVersion.MessageDetermines` | internal/core/domain/authorization/policy_set.go:316-363 | frames mixed with raw counts still determine the workspace, the members and the policies |
| `PolicyVersion.VersionsAgreeExactly` | internal/core/domain/authorization/policy_set.go:316-343 | versions agree if and only if the workspace, the members and each policy's id, generation and bindings do, unless the hash collides on the two messages |
| `PolicyVersion.NewPolicySet` | internal/core/domain/authorization/policy_set.go:99-146 | success exactly when snapshot, directory and policies are accepted, with the set that sorting, compiling and hashing give; otherwise the first reason against them |
| `PolicyVersion.CheckPolicies` | internal/core/domain/authorization/policy_set.go:118-129 | the first objection in input order: an invalid revision or a repeated id |
| `PolicyVersion.ConstructIsWellBuilt` | internal/core/domain/authorization/policy_set.go:99-146 | what the constructor returns meets everything the evaluator theorems ask |
| `PolicyVersion.OrderOfPoliciesDoesNotMatter` | internal/core/domain/authorization/policy_set.go:99-146 | any permutation of the policies is accepted alike and builds the same set, hence one version and one decision for every input |
| `PolicyVersion.SameVersionSameDecisions` | internal/core/domain/authorization/policy_set.go:99-146 | two accepted sets with the same version decide every input alike, unless the hash collides on their two messages |
| `TrailerGuard.CredentialTrailerBody.ScrubSection` | internal/transport/http/bearer.go:435-446 | the trailer is removed and remembered as a rejection |
| `TrailerGuard.CredentialTrailerBody.EnterRead` | internal/transport/http/bearer.go:448-454 | a Read waits while a Close holds the guard, or is counted |
| `TrailerGuard.CredentialTrailerBody.SettleRead` | internal/transport/http/bearer.go:461-468 | after the wrapped Read: wait for a Close, or scrub if the body ended |
| `TrailerGuard.CredentialTrailerBody.EnterClose` | internal/transport/http/bearer.go:471-477 | one Close at a time holds the guard |
| `TrailerGuard.CredentialTrailerBody.LeaveClose` | internal/transport/http/bearer.go:481-489 | a Close waits for all reads, then scrubs and releases the guard |
| `TrailerGuard.RunKeeps` | internal/transport/http/bearer.go:418-490 | for any number of calls: the counter is the number of reads inside, one Close at most holds the guard, nobody waits for what has happened already, and a trailer on the request always has a pending call that will scrub it |
| `TrailerGuard.CloseScrubsAlone` | internal/transport/http/bearer.go:481-489 | when a Close scrubs, no other call is inside the wrapped body |
| `TrailerGuard.RejectionIsFinal` | internal/transport/http/bearer.go:443-446 | a rejection is never taken back |
| `TrailerGuard.QuietMeansClean` | internal/transport/http/bearer.go:448-490 | whenever no call is pending, no credential trailer is on the request |
| `TrailerGuard.EveryTrailerIsRejected` | internal/transport/http/bearer.go:418-490 | once all calls have returned, every trailer that ever appeared is gone and has led to a rejection |
| `TrailerGuard.RejectionHasACause` | internal/transport/http/bearer.go:435-446 | a rejection is never made up: it was there from the start, asked for, or a trailer had appeared |
| `TrailerGuard.RejectedExactly` | internal/transport/http/bearer.go:418-490 | once all calls have returned the request is rejected if and only if there was such a cause |
| `TrailerGuard.SomeCallCanMove` | internal/transport/http/bearer.go:448-490 | while a call is pending some call can move, so there is no deadlock and no lost wake-up |
| `TrailerGuard.SchedulesEnd` | internal/transport/http/bearer.go:448-490 | without new calls every schedule is bounded, whatever the order of steps and wake-ups |
| `TrailerGuard.StuckMeansDone` | internal/transport/http/bearer.go:448-490 | where no call can step, every call has returned |
| `TrailerFilter.AsciiEqualFold` | internal/transport/http/bearer.go:492-510 | equal but for the case of ASCII letters |
| `TrailerFilter.FoldIsCaseBlind` | internal/transport/http/bearer.go:492-510 | equal under the fold if and only if equal in capitals |
| `TrailerFilter.CredentialsInAnyCase` | internal/transport/http/bearer.go:349-351 | a credential name is Authorization or Cookie in any case |
| `TrailerFilter.HasCredentialTrailerName` | internal/transport/http/bearer.go:340-351 | some trimmed name between commas is a credential name |
| `TrailerFilter.RemoveCredentialTrailerNames` | internal/transport/http/bearer.go:395-412 | the value itself without a credential, else the other names joined |
| `TrailerFilter.JoinThenSplit` | internal/transport/http/bearer.go:401-411 | the joined text declares just the names it was joined from |
| `TrailerFilter.CleanedNames` | internal/transport/http/bearer.go:395-412 | a cleaned value declares the other names in their order and no credential |
| `TrailerFilter.FilterInPlace` | internal/transport/http/bearer.go:377-392 | the kept values end up at the front of the same slice, the rest is cleared, and no value is overwritten before it is read |
| `TrailerFilter.KeptAreSafe` | internal/transport/http/bearer.go:370-393 | nothing kept declares a credential |
| `TrailerFilter.FilteringIsIdempotent` | internal/transport/http/bearer.go:370-393 | filtering again changes nothing |

## Left out

- The HTTP fetch of the key set, key-material checks, signature verification, SHA-256, base64 decoding and the JSON libraries: foreign code, replaced by parameters, token streams and free outcomes.
- Wrap-around of the cache's 64-bit attempt and generation counters: they are unbounded naturals here.
- NewLedger and its check of the administrator directory: a pass over the entries that would only add easy members.
- `Ledger.ElevationLedger.TakeSample`: the compare-and-swap loop of the sample counter is one atomic step, so its retries are not modelled.
- The fields of an audit event: an event is its stream, sequence number and canonical text, and their validity is a parameter.
- The causes wrapped in audit errors: an error is its kind.
- UnmarshalCanonicalSegment after the record count, and retention, export and holds of the audit package.
- Strings that are not valid UTF-8, which the pointer code rejects before anything else: admission strings are Unicode scalar values.
- The byte order of UTF-8 strings is taken as the order of their scalar values, with which it coincides.
- The character patterns of the schema and the blanks that trimming removes: written out as predicates, and not derived from anything else.
- `time.Parse` with the exact layout: a parameter of the status schema.
- parseRaw: the size and UTF-8 checks before the walk, and the decoding of the text into a value after it.
- Semantic, immutability and reference admission (semantic.go, admission.go).
- NewMemberDirectory: the evaluator theorems need a directory that passes ValidateMemberDirectory, however it was made.
- ValidatePolicySet, which derives everything again and compares.
- The input digest and the text forms of decisions and versions: the same framing once more.
- The resolvers that seal targets from a hierarchy snapshot: a target is any value that passes ValidateTarget.
- `PolicyVersion.NewPolicySet`: the error of a refused policy is its index, without the nested cause.
- The map of headers around the trailer filter: the model filters the values of one header.
- Uninitialized zero values of the Go types, and the String, Format and Marshal methods that refuse or redact.
- The OpenAPI contract, the reference server, the workflow and branch protection tools and other services: comparison against constants and wiring.
