/** Whose chain a segment belongs to, and that verification accepts exactly what appending builds. */
module ChainMeaning {
  import opened Wrappers
  import opened Framing
  import opened AuditChain

  // ----- one genesis for each stream

  function Genesis(env: Env, stream: Stream): Checkpoint
    requires ValidStream(env, stream)
  {
    Checkpoint(stream, 0, GenesisDigest(env, stream))
  }

  /** The message behind a genesis digest determines the whole stream. */
  lemma GenesisMessageInjective(a: Stream, b: Stream)
    requires |a.workspaceID| <= MAX_ID_BYTES && |b.workspaceID| <= MAX_ID_BYTES
             && GenesisMessage(a) == GenesisMessage(b)
    ensures a == b
  {
    var left, right := GenesisFields(a), GenesisFields(b);
    FramesInjective(left, right);
    assert left[2] == right[2] && left[3] == right[3];
    assert |KindName(Workspace)| != |KindName(Platform)|;
  }

  /** The genesis digest of one stream makes a valid checkpoint of another at no beginning, and of its own only
      there. */
  lemma GenesisBelongsToOneStream(env: Env, a: Stream, b: Stream, sequence: nat)
    requires ValidStream(env, a) && ValidStream(env, b) && sequence < TWO64
    requires CollisionFree(env.hash, {GenesisMessage(a), GenesisMessage(b)})
    ensures ValidCheckpoint(env, Checkpoint(b, sequence, GenesisDigest(env, a))) <==> (sequence == 0 <==> a == b)
  {
    if GenesisDigest(env, a) == GenesisDigest(env, b) {
      assert GenesisMessage(a) in {GenesisMessage(a), GenesisMessage(b)};
      assert GenesisMessage(b) in {GenesisMessage(a), GenesisMessage(b)};
      GenesisMessageInjective(a, b);
    }
  }

  /** Records that verify from a checkpoint are of its stream, follow its number and chain to its digest. */
  lemma VerifiedRecordsLink(env: Env, previous: Checkpoint, records: seq<Record>, head: Checkpoint)
    requires Verifies(env, previous, records, head) && records != []
    ensures records[0].event.stream == previous.stream && records[0].previousDigest == previous.digest
    ensures records[0].event.sequence == previous.sequence + 1
  {
    OnlyTheFirstLinkCanFail(env, previous, records);
  }

  /** A non-empty segment verifies from at most one checkpoint. */
  lemma OnePredecessor(env: Env, a: Checkpoint, b: Checkpoint, records: seq<Record>, x: Checkpoint, y: Checkpoint)
    requires Verifies(env, a, records, x) && Verifies(env, b, records, y) && records != []
    ensures a == b && x == y
  {
    VerifiedRecordsLink(env, a, records, x);
    VerifiedRecordsLink(env, b, records, y);
  }

  /** What verifies from the beginning of one stream verifies from the beginning of no other, and a beginning with the
      digest of another stream is refused. */
  lemma SegmentsStayInTheirStream(env: Env, a: Stream, b: Stream, records: seq<Record>, head: Checkpoint)
    requires ValidStream(env, a) && ValidStream(env, b) && a != b
    requires Verifies(env, Genesis(env, a), records, head) && records != []
    requires CollisionFree(env.hash, {GenesisMessage(a), GenesisMessage(b)})
    ensures !exists other :: Verifies(env, Genesis(env, b), records, other)
    ensures !exists other :: Verifies(env, Checkpoint(b, 0, GenesisDigest(env, a)), records, other)
  {
    hide Verifies;
    if other :| Verifies(env, Genesis(env, b), records, other) {
      OnePredecessor(env, Genesis(env, a), Genesis(env, b), records, head, other);
    }
    GenesisBelongsToOneStream(env, a, b, 0);
    if other :| Verifies(env, Checkpoint(b, 0, GenesisDigest(env, a)), records, other) {
      VerifiesFromValid(env, Checkpoint(b, 0, GenesisDigest(env, a)), records, other);
    }
  }

  lemma VerifiesFromValid(env: Env, previous: Checkpoint, records: seq<Record>, head: Checkpoint)
    requires Verifies(env, previous, records, head)
    ensures ValidCheckpoint(env, previous)
  {
  }

  // ----- appending

  /** Append succeeds exactly on the event that continues a valid checkpoint; the record holds the event and both ends
      of its link. Otherwise the error is that of the first check that fails. */
  lemma AppendExactly(env: Env, previous: Checkpoint, event: Event)
    ensures var appended := Append(env, previous, event);
            && (appended.Success? <==> ValidCheckpoint(env, previous) && Continues(env, previous, [event]))
            && (appended.Success? ==>
                  var (record, head) := appended.value;
                  && record.event == event && record.previousDigest == previous.digest && Hashable(event)
                  && record.digest == head.digest == env.hash(RecordMessage(previous.digest, event))
                  && head.stream == event.stream == previous.stream && head.sequence == event.sequence)
            && (appended == Failure(InvalidCheckpoint) <==> !ValidCheckpoint(env, previous))
            && (appended == Failure(InvalidEvent) <==> ValidCheckpoint(env, previous) && !ValidEvent(env, event))
            && (appended == Failure(InvalidSequence) <==>
                  ValidCheckpoint(env, previous) && ValidEvent(env, event) && event.sequence != previous.sequence + 1)
  {
    hide ValidCheckpoint;
    assert [event][0] == event;
  }

  // ----- verification accepts exactly what is built

  function EventsOf(records: seq<Record>): seq<Event> {
    seq(|records|, i requires 0 <= i < |records| => records[i].event)
  }

  /** Appending the events of the records gives these very records and this head. */
  ghost predicate Appends(env: Env, previous: Checkpoint, records: seq<Record>, head: Checkpoint) {
    AppendAll(env, previous, EventsOf(records)) == Success(Built(records, head))
  }

  /** One more record that the walk accepts is one that Append makes. */
  lemma FollowedIsAppended(env: Env, head: Checkpoint, record: Record)
    requires ValidEvent(env, record.event) && ValidCheckpoint(env, head) && Follow(env, head, record).Success?
    ensures Append(env, head, record.event) == Success((record, Follow(env, head, record).value))
  {
    hide ValidCheckpoint;
  }

  /** With no record message colliding with the genesis message, every head after a record is valid. */
  lemma FollowedIsValid(env: Env, head: Checkpoint, record: Record)
    requires ValidEvent(env, record.event) && ValidCheckpoint(env, head) && Follow(env, head, record).Success?
    requires CollisionFree(env.hash, {RecordMessage(record.previousDigest, record.event), GenesisMessage(head.stream)})
    ensures ValidCheckpoint(env, Follow(env, head, record).value)
  {
    DomainsAreSeparate(record.previousDigest, record.event, head.stream);
    var messages := {RecordMessage(record.previousDigest, record.event), GenesisMessage(head.stream)};
    assert RecordMessage(record.previousDigest, record.event) in messages && GenesisMessage(head.stream) in messages;
  }

  lemma {:induction false} FollowedAllAppends(env: Env, previous: Checkpoint, records: seq<Record>)
    requires ValidCheckpoint(env, previous) && RecordsHashable(records) && FollowAll(env, previous, records).Success?
    requires forall i :: 0 <= i < |records| ==> ValidEvent(env, records[i].event)
    requires CollisionFree(env.hash, Messages(records) + {GenesisMessage(previous.stream)})
    ensures var head := FollowAll(env, previous, records).value;
            Appends(env, previous, records, head) && ValidCheckpoint(env, head) && head.stream == previous.stream
  {
    var genesis := GenesisMessage(previous.stream);
    hide ValidCheckpoint, CollisionFree, Append, Follow, ValidEvent;
    if records == [] {
      assert EventsOf(records) == [];
    } else {
      var front, last := records[..|records| - 1], records[|records| - 1];
      FewerMessages(env.hash, Messages(front) + {genesis},
                    Messages(records) + {genesis});
      FollowedAllAppends(env, previous, front);
      var before := FollowAll(env, previous, front).value;
      FewerMessages(env.hash, {RecordMessage(last.previousDigest, last.event), genesis},
                    Messages(records) + {genesis});
      FollowedIsAppended(env, before, last);
      FollowedIsValid(env, before, last);
      FollowKeepsStream(env, before, last);
      assert EventsOf(records)[..|records| - 1] == EventsOf(front);
      assert records == front + [last];
    }
  }

  lemma FollowKeepsStream(env: Env, head: Checkpoint, record: Record)
    requires Hashable(record.event) && Follow(env, head, record).Success?
    ensures Follow(env, head, record).value.stream == head.stream
  {
  }

  lemma StructuredEventsAreValid(env: Env, records: seq<Record>)
    requires WellStructured(env, records)
    ensures forall i :: 0 <= i < |records| ==> ValidEvent(env, records[i].event)
  {
    forall i | 0 <= i < |records|
      ensures ValidEvent(env, records[i].event)
    {
      assert StructureAt(env, records, i).None?;
    }
  }

  /** From a valid checkpoint a segment verifies to a head exactly when appending its events builds it with that head,
      unless one of the messages hashed collides. */
  lemma VerifiesExactlyWhatIsBuilt(env: Env, previous: Checkpoint, records: seq<Record>, head: Checkpoint)
    requires ValidCheckpoint(env, previous) && |records| <= MAX_SEGMENT_EVENTS && RecordsHashable(records)
    requires CollisionFree(env.hash, Messages(records) + {GenesisMessage(previous.stream)})
    ensures Verifies(env, previous, records, head) <==> Appends(env, previous, records, head)
  {
    if Verifies(env, previous, records, head) {
      StructuredEventsAreValid(env, records);
      FollowedAllAppends(env, previous, records);
    } else if Appends(env, previous, records, head) {
      BuiltSegmentVerifies(env, previous, EventsOf(records));
    }
  }

  /** The structure check alone passes exactly the records that are valid one by one and chain from some valid
      checkpoint. */
  lemma WellStructuredExactly(env: Env, records: seq<Record>)
    requires records != []
    ensures WellStructured(env, records) <==>
            && |records| <= MAX_SEGMENT_EVENTS && (forall i :: 0 <= i < |records| ==> ValidEvent(env, records[i].event))
            && RecordsHashable(records)
            && exists previous :: ValidCheckpoint(env, previous) && FollowAll(env, previous, records).Success?
  {
    if WellStructured(env, records) {
      StructuredEventsAreValid(env, records);
      StructureHashable(env, records);
      assert StructureAt(env, records, 0).None?;
      var first := records[0];
      var previous := Checkpoint(first.event.stream, first.event.sequence - 1, first.previousDigest);
      FirstLinkDecides(env, previous, records);
      assert ValidCheckpoint(env, previous) && FollowAll(env, previous, records).Success?;
    } else if && |records| <= MAX_SEGMENT_EVENTS
              && (forall i :: 0 <= i < |records| ==> ValidEvent(env, records[i].event))
              && RecordsHashable(records)
              && exists previous :: ValidCheckpoint(env, previous) && FollowAll(env, previous, records).Success?
    {
      var previous :| ValidCheckpoint(env, previous) && FollowAll(env, previous, records).Success?;
      FollowedIsStructured(env, previous, records);
    }
  }

  /** Records along which the walk succeeds are linked. */
  lemma {:induction false} FollowedIsStructured(env: Env, previous: Checkpoint, records: seq<Record>)
    requires ValidCheckpoint(env, previous) && RecordsHashable(records) && FollowAll(env, previous, records).Success?
    requires forall i :: 0 <= i < |records| ==> ValidEvent(env, records[i].event)
    ensures forall i :: 0 <= i < |records| ==> StructureAt(env, records, i).None?
    ensures records != [] ==>
              var last, head := records[|records| - 1], FollowAll(env, previous, records).value;
              last.event.sequence == head.sequence && last.event.stream == head.stream && last.digest == head.digest
  {
    if records != [] {
      var front, n := records[..|records| - 1], |records| - 1;
      FollowedIsStructured(env, previous, front);
      forall i | 0 <= i < n
        ensures StructureAt(env, records, i).None?
      {
        assert StructureAt(env, front, i).None?;
        assert records[i] == front[i] && (i > 0 ==> records[i - 1] == front[i - 1]);
      }
      assert n > 0 ==> records[n - 1] == front[n - 1];
      LastIsStructured(env, previous, records);
    }
  }

  lemma LastIsStructured(env: Env, previous: Checkpoint, records: seq<Record>)
    requires records != [] && RecordsHashable(records) && ValidEvent(env, records[|records| - 1].event)
    requires FollowAll(env, previous, records).Success? && ValidCheckpoint(env, previous)
    requires |records| > 1 ==>
               var last, head := records[|records| - 2], FollowAll(env, previous, records[..|records| - 1]).value;
               last.event.sequence == head.sequence && last.event.stream == head.stream && last.digest == head.digest
    ensures StructureAt(env, records, |records| - 1).None?
  {
    hide RecordDigest;
    if |records| == 1 { assert records[..0] == []; }
  }
}
