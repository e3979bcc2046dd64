/** The audit hash chain: checkpoints, appended records and bounded segments.

    The hash, the identifier check and the event field check are parameters. An event stands for its
    stream, its sequence number and its canonical text, which together determine it. */
module AuditChain {
  import opened Wrappers
  import opened Framing

  const CONTRACT_VERSION := "veer.audit.v1alpha1"
  const GENESIS_DOMAIN := "veer.audit.chain.genesis.v1"
  const RECORD_DOMAIN := "veer.audit.chain.record.v1"
  const MAX_EVENT_BYTES := 16_384
  const MAX_SEGMENT_EVENTS := 1_000
  const MAX_SEGMENT_BYTES := 16_640_512
  const RECORD_FRAMING_BYTES := 256
  const MAX_ID_BYTES := 128

  datatype Result<+T> = Success(value: T) | Failure(error: Error)

  datatype Error =
    | InvalidCheckpoint
    | InvalidEvent
    | InvalidSequence
    | InvalidStream
    | InvalidRecord
    | InvalidSegment
    | SegmentTooLarge
    | PredecessorMismatch
    | DigestMismatch
    | UnexpectedHead

  datatype StreamKind = Workspace | Platform

  datatype Stream = Stream(kind: StreamKind, workspaceID: Bytes)

  datatype Event = Event(stream: Stream, sequence: nat, canonical: Bytes)

  datatype Checkpoint = Checkpoint(stream: Stream, sequence: nat, digest: Digest)

  datatype Record = Record(event: Event, previousDigest: Digest, digest: Digest)

  /** Foreign code: SHA-256, the opaque ID pattern, and the checks on the fields of an event. */
  datatype Env = Env(hash: Bytes -> Digest, validID: Bytes -> bool, validFields: Event -> bool)

  predicate ValidStream(env: Env, stream: Stream) {
    match stream.kind
    case Workspace => |stream.workspaceID| <= MAX_ID_BYTES && env.validID(stream.workspaceID)
    case Platform => stream.workspaceID == []
  }

  predicate ValidEvent(env: Env, event: Event) {
    && 0 < event.sequence < TWO64
    && ValidStream(env, event.stream)
    && env.validFields(event)
    && |event.canonical| <= MAX_EVENT_BYTES
  }

  function KindName(kind: StreamKind): Bytes {
    match kind
    case Workspace => Ascii("Workspace")
    case Platform => Ascii("Platform")
  }

  // ----- digests

  function GenesisFields(stream: Stream): seq<Bytes> {
    [Ascii(GENESIS_DOMAIN), Ascii(CONTRACT_VERSION), KindName(stream.kind), stream.workspaceID]
  }

  function GenesisMessage(stream: Stream): Bytes
    requires |stream.workspaceID| <= MAX_ID_BYTES
  {
    Frames(GenesisFields(stream))
  }

  function GenesisDigest(env: Env, stream: Stream): Digest
    requires |stream.workspaceID| <= MAX_ID_BYTES
  {
    env.hash(GenesisMessage(stream))
  }

  predicate Hashable(event: Event) {
    |event.stream.workspaceID| <= MAX_ID_BYTES && event.sequence < TWO64 && |event.canonical| <= MAX_EVENT_BYTES
  }

  function RecordFields(previous: Digest, event: Event): seq<Bytes>
    requires Hashable(event)
  {
    [Ascii(RECORD_DOMAIN), Ascii(CONTRACT_VERSION), KindName(event.stream.kind), event.stream.workspaceID,
     U64(event.sequence), previous, event.canonical]
  }

  /** What the hash of a record covers. */
  function RecordMessage(previous: Digest, event: Event): Bytes
    requires Hashable(event)
  {
    Frames(RecordFields(previous, event))
  }

  function RecordDigest(env: Env, previous: Digest, event: Event): Digest
    requires Hashable(event)
  {
    env.hash(RecordMessage(previous, event))
  }

  /** The message behind a record digest determines the predecessor and the whole event. */
  lemma RecordMessageInjective(p: Digest, e: Event, q: Digest, f: Event)
    requires Hashable(e) && Hashable(f) && RecordMessage(p, e) == RecordMessage(q, f)
    ensures p == q && e == f
  {
    var left, right := RecordFields(p, e), RecordFields(q, f);
    FramesInjective(left, right);
    assert left[2] == right[2] && left[3] == right[3] && left[4] == right[4] && left[5] == right[5]
           && left[6] == right[6];
    U64Injective(e.sequence, f.sequence);
    assert |KindName(Workspace)| != |KindName(Platform)|;
  }

  /** Domain separation: no record message is a genesis message. */
  lemma DomainsAreSeparate(previous: Digest, event: Event, stream: Stream)
    requires Hashable(event) && |stream.workspaceID| <= MAX_ID_BYTES
    ensures RecordMessage(previous, event) != GenesisMessage(stream)
  {
    if RecordMessage(previous, event) == GenesisMessage(stream) {
      FramesInjective(RecordFields(previous, event), GenesisFields(stream));
    }
  }

  // ----- checkpoints and appending

  predicate ValidCheckpoint(env: Env, c: Checkpoint) {
    && ValidStream(env, c.stream) && c.sequence < TWO64
    && (c.sequence == 0 <==> c.digest == GenesisDigest(env, c.stream))
  }

  /** The checkpoint after an event. */
  function Next(env: Env, previous: Checkpoint, event: Event): Checkpoint
    requires Hashable(event)
  {
    Checkpoint(previous.stream, event.sequence, RecordDigest(env, previous.digest, event))
  }

  function Append(env: Env, previous: Checkpoint, event: Event): Result<(Record, Checkpoint)> {
    if !ValidCheckpoint(env, previous) then Failure(InvalidCheckpoint)
    else if !ValidEvent(env, event) then Failure(InvalidEvent)
    else if previous.sequence == TWO64 - 1 || event.sequence != previous.sequence + 1 then Failure(InvalidSequence)
    else if event.stream != previous.stream then Failure(InvalidStream)
    else
      var next := Next(env, previous, event);
      Success((Record(event, previous.digest, next.digest), next))
  }

  datatype Built = Built(records: seq<Record>, head: Checkpoint)

  /** Appends the events one after the other. */
  function AppendAll(env: Env, previous: Checkpoint, events: seq<Event>): Result<Built> {
    if events == [] then Success(Built([], previous))
    else
      match AppendAll(env, previous, events[..|events| - 1])
      case Failure(error) => Failure(error)
      case Success(built) =>
        match Append(env, built.head, events[|events| - 1])
        case Failure(error) => Failure(error)
        case Success(appended) => Success(Built(built.records + [appended.0], appended.1))
  }

  /** The events continue the checkpoint without a gap. */
  ghost predicate Continues(env: Env, previous: Checkpoint, events: seq<Event>) {
    && previous.sequence + |events| < TWO64
    && (forall i :: 0 <= i < |events| ==>
          && ValidEvent(env, events[i])
          && events[i].stream == previous.stream
          && events[i].sequence == previous.sequence + i + 1)
  }

  // ----- size preflight

  const SEGMENT_PREFIX := "{\"contractVersion\":\"" + CONTRACT_VERSION + "\",\"records\":["

  function Estimate(events: seq<Event>): nat {
    if events == [] then |SEGMENT_PREFIX| + 2
    else Estimate(events[..|events| - 1]) + |events[|events| - 1].canonical| + RECORD_FRAMING_BYTES
  }

  /** A thousand events of the greatest size still fit, so the size check never fires. */
  lemma {:induction false} EstimateBound(events: seq<Event>)
    requires forall i :: 0 <= i < |events| ==> |events[i].canonical| <= MAX_EVENT_BYTES
    ensures Estimate(events) <= |SEGMENT_PREFIX| + 2 + |events| * (MAX_EVENT_BYTES + RECORD_FRAMING_BYTES)
    ensures |events| <= MAX_SEGMENT_EVENTS ==> Estimate(events) <= MAX_SEGMENT_BYTES
  {
    if events != [] {
      EstimateBound(events[..|events| - 1]);
    }
    assert |SEGMENT_PREFIX| == 20 + 19 + 13;
  }

  /** The objection to one event: its fields, its place after the checkpoint, or the size so far. */
  function EventFault(env: Env, previous: Checkpoint, events: seq<Event>, i: nat): Option<Error>
    requires i < |events|
  {
    if !ValidEvent(env, events[i]) then Some(InvalidEvent)
    else if events[i].sequence != previous.sequence + i + 1 || events[i].stream != previous.stream then
      Some(InvalidSequence)
    else if Estimate(events[..i + 1]) > MAX_SEGMENT_BYTES then Some(SegmentTooLarge)
    else None
  }

  /** The error is that of the first event with an objection. */
  ghost predicate FirstFault(env: Env, previous: Checkpoint, events: seq<Event>, error: Error) {
    exists i ::
      && 0 <= i < |events| && EventFault(env, previous, events, i) == Some(error)
      && forall k :: 0 <= k < i ==> EventFault(env, previous, events, k).None?
  }

  /** The size is never what speaks against one of the first thousand valid events. */
  lemma SizeIsNoFault(env: Env, previous: Checkpoint, events: seq<Event>, i: nat)
    requires i < |events| <= MAX_SEGMENT_EVENTS
    requires forall k :: 0 <= k < i ==> EventFault(env, previous, events, k).None?
    ensures EventFault(env, previous, events, i) != Some(SegmentTooLarge)
  {
    hide Estimate;
    forall k | 0 <= k < i
      ensures ValidEvent(env, events[k])
    {
      assert EventFault(env, previous, events, k).None?;
    }
    if ValidEvent(env, events[i]) { EstimateBound(events[..i + 1]); }
  }

  /** Events without an objection are exactly those that continue the checkpoint. */
  lemma NoFaultExactlyWhenContinuing(env: Env, previous: Checkpoint, events: seq<Event>)
    requires previous.sequence < TWO64 && |events| <= MAX_SEGMENT_EVENTS
    ensures Continues(env, previous, events) <==>
            forall i :: 0 <= i < |events| ==> EventFault(env, previous, events, i).None?
  {
    hide Estimate, ValidEvent;
    if Continues(env, previous, events) {
      ContinuingHasNoFault(env, previous, events, |events|);
    } else if forall i :: 0 <= i < |events| ==> EventFault(env, previous, events, i).None? {
      LastSequence(env, previous, events);
      forall i | 0 <= i < |events|
        ensures ValidEvent(env, events[i]) && events[i].stream == previous.stream
        ensures events[i].sequence == previous.sequence + i + 1
      {
        assert EventFault(env, previous, events, i).None?;
      }
    }
  }

  lemma {:induction false} ContinuingHasNoFault(env: Env, previous: Checkpoint, events: seq<Event>, n: nat)
    requires n <= |events| <= MAX_SEGMENT_EVENTS && Continues(env, previous, events)
    ensures forall i :: 0 <= i < n ==> EventFault(env, previous, events, i).None?
  {
    if n > 0 {
      ContinuingHasNoFault(env, previous, events, n - 1);
      hide Estimate, ValidEvent;
      SizeIsNoFault(env, previous, events, n - 1);
    }
  }

  lemma SequencesAreBounded(env: Env, event: Event)
    ensures ValidEvent(env, event) ==> event.sequence < TWO64
  {
  }

  lemma LastSequence(env: Env, previous: Checkpoint, events: seq<Event>)
    requires previous.sequence < TWO64
    requires forall i :: 0 <= i < |events| ==> EventFault(env, previous, events, i).None?
    ensures previous.sequence + |events| < TWO64
  {
    if events != [] { assert EventFault(env, previous, events, |events| - 1).None?; }
  }

  /** Accepts exactly the events that continue the checkpoint and names the first objection; for at most a
      thousand events the size estimate is no further obstacle. */
  method PreflightEvents(env: Env, previous: Checkpoint, events: seq<Event>) returns (failure: Option<Error>)
    requires previous.sequence < TWO64
    ensures |events| <= MAX_SEGMENT_EVENTS ==> (failure.None? <==> Continues(env, previous, events))
    ensures |events| <= MAX_SEGMENT_EVENTS ==> failure != Some(SegmentTooLarge)
    ensures failure.None? ==> Estimate(events) <= MAX_SEGMENT_BYTES
    ensures failure.Some? ==> FirstFault(env, previous, events, failure.value)
  {
    hide ValidEvent, Continues;
    var estimated := |SEGMENT_PREFIX| + 2;
    var sequence := previous.sequence;
    if |events| <= MAX_SEGMENT_EVENTS { NoFaultExactlyWhenContinuing(env, previous, events); }
    for i := 0 to |events|
      invariant estimated == Estimate(events[..i]) && (i > 0 ==> estimated <= MAX_SEGMENT_BYTES)
      invariant sequence == previous.sequence + i < TWO64
      invariant forall k :: 0 <= k < i ==> EventFault(env, previous, events, k).None?
    {
      var event := events[i];
      assert events[..i + 1][..i] == events[..i];
      if |events| <= MAX_SEGMENT_EVENTS { SizeIsNoFault(env, previous, events, i); }
      SequencesAreBounded(env, event);
      ghost var fault := EventFault(env, previous, events, i);
      if !ValidEvent(env, event) {
        return Some(InvalidEvent);
      }
      if sequence == TWO64 - 1 || event.sequence != sequence + 1 || event.stream != previous.stream {
        return Some(InvalidSequence);
      }
      sequence := event.sequence;
      estimated := estimated + (|event.canonical| + RECORD_FRAMING_BYTES);
      if estimated > MAX_SEGMENT_BYTES {
        return Some(SegmentTooLarge);
      }
    }
    assert events[..|events|] == events;
    return None;
  }

  // ----- segments

  lemma {:induction false} AppendAllShape(env: Env, previous: Checkpoint, events: seq<Event>)
    requires AppendAll(env, previous, events).Success?
    ensures var built := AppendAll(env, previous, events).value;
            && |built.records| == |events|
            && built.head.stream == previous.stream && built.head.sequence == previous.sequence + |events|
            && (forall i :: 0 <= i < |events| ==> built.records[i].event == events[i])
            && (events != [] ==> built.head.digest == built.records[|events| - 1].digest)
  {
    if events != [] {
      AppendAllShape(env, previous, events[..|events| - 1]);
    }
  }

  lemma {:induction false} AppendAllSplits(env: Env, previous: Checkpoint, left: seq<Event>, right: seq<Event>)
    ensures AppendAll(env, previous, left + right) ==
            match AppendAll(env, previous, left)
            case Failure(error) => Failure(error)
            case Success(first) =>
              match AppendAll(env, first.head, right)
              case Failure(error) => Failure(error)
              case Success(second) => Success(Built(first.records + second.records, second.head))
    decreases |right|
  {
    if right == [] {
      assert left + right == left;
      if AppendAll(env, previous, left).Success? {
        var first := AppendAll(env, previous, left).value;
        assert first.records + [] == first.records;
      }
    } else {
      var front, last := right[..|right| - 1], right[|right| - 1];
      assert (left + right)[..|left + right| - 1] == left + front;
      AppendAllSplits(env, previous, left, front);
      if AppendAll(env, previous, left).Success? {
        var first := AppendAll(env, previous, left).value;
        if AppendAll(env, first.head, front).Success? {
          var second := AppendAll(env, first.head, front).value;
          match Append(env, second.head, last)
          case Failure(_) =>
          case Success(appended) =>
            assert first.records + (second.records + [appended.0]) == (first.records + second.records) + [appended.0];
        }
      }
    }
  }

  ghost predicate AllHashable(events: seq<Event>) {
    forall i :: 0 <= i < |events| ==> Hashable(events[i])
  }

  /** The digest after chaining the events onto a digest. */
  ghost function ChainDigest(env: Env, digest: Digest, events: seq<Event>): Digest
    requires AllHashable(events)
  {
    if events == [] then digest
    else RecordDigest(env, ChainDigest(env, digest, events[..|events| - 1]), events[|events| - 1])
  }

  /** Every message hashed while chaining the events onto a digest. */
  ghost function ChainMessages(env: Env, digest: Digest, events: seq<Event>): set<Bytes>
    requires AllHashable(events)
  {
    if events == [] then {}
    else
      var front, last := events[..|events| - 1], events[|events| - 1];
      ChainMessages(env, digest, front) + {RecordMessage(ChainDigest(env, digest, front), last)}
  }

  /** Events that continue a valid checkpoint chain without failure, and every checkpoint on the way is
      valid: a record digest is never the genesis digest. */
  lemma {:induction false} AppendAllSucceeds(env: Env, previous: Checkpoint, events: seq<Event>)
    requires ValidCheckpoint(env, previous) && Continues(env, previous, events)
    requires CollisionFree(env.hash, ChainMessages(env, previous.digest, events) + {GenesisMessage(previous.stream)})
    ensures var all := AppendAll(env, previous, events);
            all.Success? && ValidCheckpoint(env, all.value.head)
            && all.value.head.digest == ChainDigest(env, previous.digest, events)
  {
    if events != [] {
      var front, last := events[..|events| - 1], events[|events| - 1];
      AppendAllSucceeds(env, previous, front);
      AppendAllShape(env, previous, front);
      var digest := ChainDigest(env, previous.digest, front);
      DomainsAreSeparate(digest, last, previous.stream);
      assert RecordMessage(digest, last) in ChainMessages(env, previous.digest, events);
    }
  }

  /** Once appending has failed, more events change nothing. */
  lemma AppendAllFails(env: Env, previous: Checkpoint, events: seq<Event>, i: nat)
    requires i <= |events| && AppendAll(env, previous, events[..i]).Failure?
    ensures AppendAll(env, previous, events) == AppendAll(env, previous, events[..i])
  {
    AppendAllSplits(env, previous, events[..i], events[i..]);
    assert events[..i] + events[i..] == events;
  }

  /** Builds a segment: exactly the appended records, or the first reason against them. */
  method NewSegment(env: Env, previous: Checkpoint, events: seq<Event>) returns (r: Result<Built>)
    ensures !ValidCheckpoint(env, previous) ==> r == Failure(InvalidCheckpoint)
    ensures ValidCheckpoint(env, previous) && |events| > MAX_SEGMENT_EVENTS ==> r == Failure(SegmentTooLarge)
    ensures ValidCheckpoint(env, previous) && |events| <= MAX_SEGMENT_EVENTS && !Continues(env, previous, events) ==>
              r.Failure? && FirstFault(env, previous, events, r.error)
    ensures ValidCheckpoint(env, previous) && |events| <= MAX_SEGMENT_EVENTS && Continues(env, previous, events) ==>
              r == AppendAll(env, previous, events)
  {
    hide Append, Continues, FirstFault;
    if !ValidCheckpoint(env, previous) {
      return Failure(InvalidCheckpoint);
    }
    if |events| > MAX_SEGMENT_EVENTS {
      return Failure(SegmentTooLarge);
    }
    var failure := PreflightEvents(env, previous, events);
    if failure.Some? {
      return Failure(failure.value);
    }
    var records: seq<Record> := [];
    var head := previous;
    for i := 0 to |events|
      invariant AppendAll(env, previous, events[..i]) == Success(Built(records, head))
    {
      assert events[..i + 1][..i] == events[..i];
      match Append(env, head, events[i]) {
        case Failure(error) =>
          AppendAllFails(env, previous, events, i + 1);
          return Failure(error);
        case Success(appended) =>
          records := records + [appended.0];
          head := appended.1;
      }
    }
    assert events[..|events|] == events;
    return Success(Built(records, head));
  }

  // ----- verification

  predicate ValidRecord(env: Env, record: Record) {
    ValidEvent(env, record.event) && record.digest == RecordDigest(env, record.previousDigest, record.event)
  }

  predicate Linked(left: Record, right: Record) {
    && left.event.sequence < TWO64 - 1
    && right.event.sequence == left.event.sequence + 1
    && right.event.stream == left.event.stream
    && right.previousDigest == left.digest
  }

  /** The check of one position of a segment. */
  function StructureAt(env: Env, records: seq<Record>, i: nat): Option<Error>
    requires i < |records|
  {
    if !ValidRecord(env, records[i]) then Some(InvalidRecord)
    else if i == 0 then
      var first := records[0];
      if ValidCheckpoint(env, Checkpoint(first.event.stream, first.event.sequence - 1, first.previousDigest)) then None
      else Some(InvalidSegment)
    else if Linked(records[i - 1], records[i]) then None
    else Some(InvalidSegment)
  }

  ghost predicate WellStructured(env: Env, records: seq<Record>) {
    |records| <= MAX_SEGMENT_EVENTS && forall i :: 0 <= i < |records| ==> StructureAt(env, records, i).None?
  }

  /** The error is that of the first position that fails, or that of too many records. */
  ghost predicate StructureFault(env: Env, records: seq<Record>, error: Error) {
    if |records| > MAX_SEGMENT_EVENTS then error == SegmentTooLarge
    else exists i ::
      && 0 <= i < |records| && StructureAt(env, records, i) == Some(error)
      && forall k :: 0 <= k < i ==> StructureAt(env, records, k).None?
  }

  method ValidateStructure(env: Env, records: seq<Record>) returns (failure: Option<Error>)
    ensures failure.None? <==> WellStructured(env, records)
    ensures failure.Some? ==> StructureFault(env, records, failure.value)
  {
    if |records| > MAX_SEGMENT_EVENTS {
      return Some(SegmentTooLarge);
    }
    for i := 0 to |records|
      invariant forall k :: 0 <= k < i ==> StructureAt(env, records, k).None?
    {
      failure := StructureAt(env, records, i);
      if failure.Some? {
        return;
      }
    }
    return None;
  }

  /** One step of verification: the record must continue the head. */
  function Follow(env: Env, head: Checkpoint, record: Record): Result<Checkpoint>
    requires Hashable(record.event)
  {
    if head.sequence == TWO64 - 1 || record.event.sequence != head.sequence + 1 then Failure(InvalidSequence)
    else if record.event.stream != head.stream || record.previousDigest != head.digest then Failure(PredecessorMismatch)
    else if record.digest != RecordDigest(env, head.digest, record.event) then Failure(DigestMismatch)
    else Success(Checkpoint(head.stream, record.event.sequence, record.digest))
  }

  ghost predicate RecordsHashable(records: seq<Record>) {
    forall i :: 0 <= i < |records| ==> Hashable(records[i].event)
  }

  function FollowAll(env: Env, head: Checkpoint, records: seq<Record>): Result<Checkpoint>
    requires RecordsHashable(records)
  {
    if records == [] then Success(head)
    else
      match FollowAll(env, head, records[..|records| - 1])
      case Failure(error) => Failure(error)
      case Success(before) => Follow(env, before, records[|records| - 1])
  }

  /** Does this segment verify from here, and to which head? */
  ghost predicate Verifies(env: Env, previous: Checkpoint, records: seq<Record>, head: Checkpoint) {
    && ValidCheckpoint(env, previous) && WellStructured(env, records) && RecordsHashable(records)
    && FollowAll(env, previous, records) == Success(head)
  }

  lemma {:induction false} FollowAllFails(env: Env, head: Checkpoint, records: seq<Record>, k: nat)
    requires RecordsHashable(records) && k <= |records| && FollowAll(env, head, records[..k]).Failure?
    ensures FollowAll(env, head, records) == FollowAll(env, head, records[..k])
    decreases |records|
  {
    if k < |records| {
      assert records[..|records| - 1][..k] == records[..k];
      FollowAllFails(env, head, records[..|records| - 1], k);
    } else {
      assert records[..k] == records;
    }
  }

  lemma StructureHashable(env: Env, records: seq<Record>)
    requires WellStructured(env, records)
    ensures RecordsHashable(records)
  {
    forall i | 0 <= i < |records|
      ensures Hashable(records[i].event)
    {
      assert StructureAt(env, records, i).None?;
    }
  }

  predicate FirstLink(previous: Checkpoint, records: seq<Record>) {
    records != [] ==>
      && records[0].event.sequence == previous.sequence + 1
      && records[0].event.stream == previous.stream
      && records[0].previousDigest == previous.digest
  }

  /** The checkpoint that the records lead to. */
  function HeadOf(previous: Checkpoint, records: seq<Record>): Checkpoint {
    if records == [] then previous
    else Checkpoint(previous.stream, previous.sequence + |records|, records[|records| - 1].digest)
  }

  lemma {:induction false} StructureFollows(env: Env, previous: Checkpoint, records: seq<Record>)
    requires ValidCheckpoint(env, previous) && WellStructured(env, records) && RecordsHashable(records)
    requires FirstLink(previous, records)
    ensures FollowAll(env, previous, records) == Success(HeadOf(previous, records))
    ensures records != [] ==>
              var last := records[|records| - 1].event;
              last.sequence == previous.sequence + |records| && last.stream == previous.stream
  {
    if records != [] {
      var front := records[..|records| - 1];
      forall i | 0 <= i < |front|
        ensures StructureAt(env, front, i).None?
      {
        assert StructureAt(env, records, i).None?;
      }
      StructureFollows(env, previous, front);
      assert StructureAt(env, records, |records| - 1).None?;
    }
  }

  /** Once the structure check passes, the walk is decided by the link of the first record. */
  lemma FirstLinkDecides(env: Env, previous: Checkpoint, records: seq<Record>)
    requires ValidCheckpoint(env, previous) && WellStructured(env, records) && RecordsHashable(records)
    ensures FollowAll(env, previous, records) ==
            if FirstLink(previous, records) then Success(HeadOf(previous, records))
            else Failure(if records[0].event.sequence != previous.sequence + 1 then InvalidSequence
                         else PredecessorMismatch)
  {
    if FirstLink(previous, records) {
      StructureFollows(env, previous, records);
    } else {
      assert StructureAt(env, records, 0).None?;
      assert records[..1] == [records[0]];
      assert records[..1][..0] == [];
      assert FollowAll(env, previous, records[..1]) == Follow(env, previous, records[0]);
      FollowAllFails(env, previous, records, 1);
    }
  }

  method VerifySegment(env: Env, previous: Checkpoint, records: seq<Record>, expected: Option<Checkpoint>)
    returns (r: Result<Checkpoint>)
    ensures r.Success? <==>
              exists head :: Verifies(env, previous, records, head)
                             && (expected.Some? ==> ValidCheckpoint(env, head) && head == expected.value)
    ensures r.Success? ==> Verifies(env, previous, records, r.value)
    ensures !ValidCheckpoint(env, previous) ==> r == Failure(InvalidCheckpoint)
    ensures ValidCheckpoint(env, previous) && !WellStructured(env, records) ==>
              r.Failure? && StructureFault(env, records, r.error)
    ensures ValidCheckpoint(env, previous) && WellStructured(env, records) ==>
              r == if !FirstLink(previous, records) then
                     Failure(if records[0].event.sequence != previous.sequence + 1 then InvalidSequence
                             else PredecessorMismatch)
                   else if expected == None || (expected == Some(HeadOf(previous, records))
                                                && ValidCheckpoint(env, expected.value)) then
                     Success(HeadOf(previous, records))
                   else Failure(UnexpectedHead)
  {
    if !ValidCheckpoint(env, previous) {
      return Failure(InvalidCheckpoint);
    }
    var failure := ValidateStructure(env, records);
    if failure.Some? {
      return Failure(failure.value);
    }
    var head := previous;
    StructureHashable(env, records);
    FirstLinkDecides(env, previous, records);
    for i := 0 to |records|
      invariant FollowAll(env, previous, records[..i]) == Success(head)
    {
      assert records[..i + 1][..i] == records[..i];
      var followed := Follow(env, head, records[i]);
      if followed.Failure? {
        FollowAllFails(env, previous, records, i + 1);
        return followed;
      }
      head := followed.value;
    }
    assert records[..|records|] == records;
    assert Verifies(env, previous, records, head);
    if expected.Some? && (!ValidCheckpoint(env, expected.value) || head != expected.value) {
      return Failure(UnexpectedHead);
    }
    return Success(head);
  }

  // ----- what verification establishes

  /** A record that continues the head extends both the structure and the walk. */
  lemma AppendedRecordVerifies(env: Env, previous: Checkpoint, records: seq<Record>, head: Checkpoint, event: Event)
    requires Verifies(env, previous, records, head) && |records| < MAX_SEGMENT_EVENTS
    requires Append(env, head, event).Success?
    requires records == [] ==> head == previous
    requires records != [] ==>
               var last := records[|records| - 1];
               last.event.stream == head.stream && last.event.sequence == head.sequence && last.digest == head.digest
    ensures var appended := Append(env, head, event).value;
            Verifies(env, previous, records + [appended.0], appended.1)
  {
    var appended := Append(env, head, event).value;
    var longer := records + [appended.0];
    forall i | 0 <= i < |longer|
      ensures StructureAt(env, longer, i).None?
    {
      if i < |records| {
        assert StructureAt(env, records, i).None?;
        assert longer[i] == records[i];
        assert i > 0 ==> longer[i - 1] == records[i - 1];
      }
    }
    assert longer[..|records|] == records;
    assert FollowAll(env, previous, longer) == Follow(env, head, appended.0);
  }

  /** A built segment verifies from the checkpoint it was built on to the head it was returned with. */
  lemma {:induction false} BuiltSegmentVerifies(env: Env, previous: Checkpoint, events: seq<Event>)
    requires ValidCheckpoint(env, previous) && |events| <= MAX_SEGMENT_EVENTS
    requires AppendAll(env, previous, events).Success?
    ensures var built := AppendAll(env, previous, events).value;
            Verifies(env, previous, built.records, built.head)
  {
    if events != [] {
      var front, last := events[..|events| - 1], events[|events| - 1];
      BuiltSegmentVerifies(env, previous, front);
      AppendAllShape(env, previous, front);
      var before := AppendAll(env, previous, front).value;
      AppendAllHead(env, previous, front);
      AppendedRecordVerifies(env, previous, before.records, before.head, last);
    }
  }

  lemma AppendAllHead(env: Env, previous: Checkpoint, events: seq<Event>)
    requires AppendAll(env, previous, events).Success?
    ensures var built := AppendAll(env, previous, events).value;
            && (events == [] ==> built.head == previous)
            && (events != [] ==>
                  |built.records| > 0 &&
                  var last := built.records[|built.records| - 1];
                  last.event.stream == built.head.stream && last.event.sequence == built.head.sequence
                  && last.digest == built.head.digest)
  {
  }

  /** With no collision among the messages hashed, any events that continue the checkpoint can be built, and
      the result verifies to a head that is accepted as the expected one. */
  lemma ContinuationBuildsAndVerifies(env: Env, previous: Checkpoint, events: seq<Event>)
    requires ValidCheckpoint(env, previous) && |events| <= MAX_SEGMENT_EVENTS && Continues(env, previous, events)
    requires CollisionFree(env.hash, ChainMessages(env, previous.digest, events) + {GenesisMessage(previous.stream)})
    ensures var all := AppendAll(env, previous, events);
            all.Success? && Verifies(env, previous, all.value.records, all.value.head)
            && ValidCheckpoint(env, all.value.head)
  {
    AppendAllSucceeds(env, previous, events);
    BuiltSegmentVerifies(env, previous, events);
  }

  /** Once the structure check passes, only the link of the first record can still fail. */
  lemma OnlyTheFirstLinkCanFail(env: Env, previous: Checkpoint, records: seq<Record>)
    requires ValidCheckpoint(env, previous) && WellStructured(env, records)
    ensures (exists head :: Verifies(env, previous, records, head)) <==> FirstLink(previous, records)
  {
    StructureHashable(env, records);
    FirstLinkDecides(env, previous, records);
    if FirstLink(previous, records) {
      assert Verifies(env, previous, records, HeadOf(previous, records));
    }
  }

  /** The messages hashed to verify these records. */
  ghost function Messages(records: seq<Record>): set<Bytes>
    requires RecordsHashable(records)
  {
    if records == [] then {}
    else
      var last := records[|records| - 1];
      Messages(records[..|records| - 1]) + {RecordMessage(last.previousDigest, last.event)}
  }

  lemma {:induction false} FollowedHead(env: Env, previous: Checkpoint, records: seq<Record>)
    requires RecordsHashable(records) && FollowAll(env, previous, records).Success?
    ensures var head := FollowAll(env, previous, records).value;
            && head.sequence == previous.sequence + |records|
            && (records != [] ==>
                  var last := records[|records| - 1];
                  && head.digest == last.digest == RecordDigest(env, last.previousDigest, last.event)
                  && FollowAll(env, previous, records[..|records| - 1]).Success?
                  && FollowAll(env, previous, records[..|records| - 1]).value
                     == Checkpoint(head.stream, last.event.sequence - 1, last.previousDigest))
  {
    if records != [] {
      FollowedHead(env, previous, records[..|records| - 1]);
    }
  }

  /** Tamper evidence: two record lists that chain from the same checkpoint to the same head are the same
      list, unless two of the messages hashed for them collide. */
  lemma {:induction false} SameHeadSameRecords(env: Env, previous: Checkpoint, a: seq<Record>, b: seq<Record>)
    requires RecordsHashable(a) && RecordsHashable(b)
    requires FollowAll(env, previous, a).Success? && FollowAll(env, previous, a) == FollowAll(env, previous, b)
    requires CollisionFree(env.hash, Messages(a) + Messages(b))
    ensures a == b
    decreases |a|
  {
    hide CollisionFree, RecordMessage;
    FollowedHead(env, previous, a);
    FollowedHead(env, previous, b);
    if a != [] {
      var x, y := a[|a| - 1], b[|b| - 1];
      SameDigestSameRecord(env, x, y, Messages(a) + Messages(b));
      var front, other := a[..|a| - 1], b[..|b| - 1];
      FewerMessages(env.hash, Messages(front) + Messages(other), Messages(a) + Messages(b));
      SameHeadSameRecords(env, previous, front, other);
      assert a == front + [x] && b == other + [y];
    }
  }

  lemma SameDigestSameRecord(env: Env, x: Record, y: Record, messages: set<Bytes>)
    requires Hashable(x.event) && Hashable(y.event) && CollisionFree(env.hash, messages)
    requires RecordMessage(x.previousDigest, x.event) in messages
             && RecordMessage(y.previousDigest, y.event) in messages
    requires x.digest == y.digest
    requires x.digest == RecordDigest(env, x.previousDigest, x.event)
    requires y.digest == RecordDigest(env, y.previousDigest, y.event)
    ensures x == y
  {
    RecordMessageInjective(x.previousDigest, x.event, y.previousDigest, y.event);
  }

  lemma FewerMessages(hash: Bytes -> Digest, fewer: set<Bytes>, messages: set<Bytes>)
    requires fewer <= messages && CollisionFree(hash, messages)
    ensures CollisionFree(hash, fewer)
  {
  }

  /** Two segments that both verify from the same predecessor to the same expected checkpoint are equal. */
  lemma TamperEvident(env: Env, previous: Checkpoint, expected: Checkpoint, a: seq<Record>, b: seq<Record>)
    requires Verifies(env, previous, a, expected) && Verifies(env, previous, b, expected)
    requires CollisionFree(env.hash, Messages(a) + Messages(b))
    ensures a == b
  {
    SameHeadSameRecords(env, previous, a, b);
  }
}
