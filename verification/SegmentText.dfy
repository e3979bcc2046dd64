/** The canonical text of a segment: how long it can get, and what the record scanner makes of it. */
module SegmentText {
  import opened Wrappers
  import opened Framing
  import Chain = AuditChain
  import Scanner = SegmentScanner

  // ----- digests as text

  const DIGEST_PREFIX := "ach1_"

  /** The URL-safe base64 alphabet. */
  function Symbol(sextet: nat): Byte
    requires sextet < 64
  {
    if sextet < 26 then 65 + sextet
    else if sextet < 52 then 97 + (sextet - 26)
    else if sextet < 62 then 48 + (sextet - 52)
    else if sextet == 62 then 45
    else 95
  }

  // The four sextets of three bytes.

  function First(a: Byte): (r: nat)
    ensures r < 64
  {
    a / 4
  }

  function Second(a: Byte, b: Byte): (r: nat)
    ensures r < 64
  {
    a % 4 * 16 + b / 16
  }

  function Third(b: Byte, c: Byte): (r: nat)
    ensures r < 64
  {
    b % 16 * 4 + c / 64
  }

  function Fourth(c: Byte): (r: nat)
    ensures r < 64
  {
    c % 64
  }

  /** Base64 without padding: three bytes become four symbols, and a rest of n bytes n + 1 symbols. */
  function Base64(bytes: Bytes): (r: Bytes)
    ensures |r| == (4 * |bytes| + 2) / 3
    ensures forall i :: 0 <= i < |r| ==> r[i] != Scanner.QUOTE && r[i] != Scanner.BACKSLASH
  {
    if |bytes| == 0 then []
    else if |bytes| == 1 then [Symbol(First(bytes[0])), Symbol(Second(bytes[0], 0))]
    else if |bytes| == 2 then
      [Symbol(First(bytes[0])), Symbol(Second(bytes[0], bytes[1])), Symbol(Third(bytes[1], 0))]
    else
      [Symbol(First(bytes[0])), Symbol(Second(bytes[0], bytes[1])), Symbol(Third(bytes[1], bytes[2])),
       Symbol(Fourth(bytes[2]))]
      + Base64(bytes[3..])
  }

  function DigestText(digest: Digest): (r: Bytes)
    ensures |r| == 48
    ensures forall i :: 0 <= i < |r| ==> r[i] != Scanner.QUOTE && r[i] != Scanner.BACKSLASH
  {
    Ascii(DIGEST_PREFIX) + Base64(digest)
  }

  // ----- records and segments as text

  function RecordText(record: Chain.Record): Bytes {
    Ascii("{\"event\":") + record.event.canonical
    + Ascii(",\"previousDigest\":\"") + DigestText(record.previousDigest)
    + Ascii("\",\"digest\":\"") + DigestText(record.digest) + Ascii("\"}")
  }

  function RecordTexts(records: seq<Chain.Record>): (r: seq<Bytes>)
    ensures |r| == |records| && forall i :: 0 <= i < |records| ==> r[i] == RecordText(records[i])
  {
    seq(|records|, i requires 0 <= i < |records| => RecordText(records[i]))
  }

  function SegmentText(records: seq<Chain.Record>): Bytes {
    Ascii(Chain.SEGMENT_PREFIX) + (Scanner.Joined(RecordTexts(records)) + Scanner.CLOSING)
  }

  function EventsOf(records: seq<Chain.Record>): (r: seq<Chain.Event>)
    ensures |r| == |records| && forall i :: 0 <= i < |records| ==> r[i] == records[i].event
  {
    seq(|records|, i requires 0 <= i < |records| => records[i].event)
  }

  // ----- length

  function TotalLength(texts: seq<Bytes>): nat {
    if texts == [] then 0 else TotalLength(texts[..|texts| - 1]) + |texts[|texts| - 1]|
  }

  lemma {:induction false} TotalLengthHead(texts: seq<Bytes>)
    requires texts != []
    ensures TotalLength(texts) == |texts[0]| + TotalLength(texts[1..])
  {
    if |texts| > 1 {
      TotalLengthHead(texts[..|texts| - 1]);
      assert texts[1..][..|texts| - 2] == texts[..|texts| - 1][1..];
    }
  }

  lemma {:induction false} JoinedLength(texts: seq<Bytes>)
    ensures |Scanner.Joined(texts)| <= TotalLength(texts) + |texts|
    decreases |texts|
  {
    if texts != [] {
      TotalLengthHead(texts);
      JoinedLength(texts[1..]);
    }
  }

  /** One record adds 138 bytes of framing and a comma to its event, well under the 256 reserved. */
  lemma RecordTextLength(record: Chain.Record)
    ensures |RecordText(record)| + 1 <= |record.event.canonical| + Chain.RECORD_FRAMING_BYTES
  {
  }

  lemma {:induction false} TextsWithinEstimate(records: seq<Chain.Record>)
    ensures TotalLength(RecordTexts(records)) + |records| + |Chain.SEGMENT_PREFIX| + 2 <=
            Chain.Estimate(EventsOf(records))
  {
    if records != [] {
      var front, last := records[..|records| - 1], records[|records| - 1];
      TextsWithinEstimate(front);
      RecordTextLength(last);
      assert RecordTexts(records)[..|records| - 1] == RecordTexts(front);
      assert EventsOf(records)[..|records| - 1] == EventsOf(front);
    }
  }

  /** Whatever the preflight lets through encodes within the byte limit. */
  lemma EncodingIsWithinEstimate(records: seq<Chain.Record>)
    ensures |SegmentText(records)| <= Chain.Estimate(EventsOf(records))
  {
    JoinedLength(RecordTexts(records));
    TextsWithinEstimate(records);
  }

  /** Every well-structured segment encodes within the byte limit, so encoding never fails for size. */
  lemma StructuredSegmentFits(env: Chain.Env, records: seq<Chain.Record>)
    requires Chain.WellStructured(env, records)
    ensures |SegmentText(records)| <= Chain.MAX_SEGMENT_BYTES
  {
    forall i | 0 <= i < |records|
      ensures |EventsOf(records)[i].canonical| <= Chain.MAX_EVENT_BYTES
    {
      assert Chain.StructureAt(env, records, i).None?;
    }
    EncodingIsWithinEstimate(records);
    Chain.EstimateBound(EventsOf(records));
  }

  // ----- the scanner on encoded segments

  function PlainUnits(bytes: Bytes): (r: seq<Scanner.Unit>)
    ensures |r| == |bytes| && forall i :: 0 <= i < |bytes| ==> r[i] == Scanner.Plain(bytes[i])
  {
    seq(|bytes|, i requires 0 <= i < |bytes| => Scanner.Plain(bytes[i]))
  }

  lemma {:induction false} PlainUnitsRender(bytes: Bytes)
    ensures Scanner.RenderUnits(PlainUnits(bytes)) == bytes
  {
    if bytes != [] {
      PlainUnitsRender(bytes[1..]);
      assert PlainUnits(bytes)[1..] == PlainUnits(bytes[1..]);
      assert bytes == [bytes[0]] + bytes[1..];
    }
  }

  function Named(name: string, value: Scanner.Json): Scanner.Member {
    Scanner.Member(PlainUnits(Ascii(name)), value)
  }

  /** A record as a JSON object around its event. */
  function RecordJson(record: Chain.Record, event: Scanner.Json): Scanner.Json {
    Scanner.Object([Named("event", event),
                    Named("previousDigest", Scanner.Text(PlainUnits(DigestText(record.previousDigest)))),
                    Named("digest", Scanner.Text(PlainUnits(DigestText(record.digest))))])
  }

  lemma NameIsPlain(name: string)
    requires name in ["event", "previousDigest", "digest"]
    ensures Scanner.UnitsOk(PlainUnits(Ascii(name)))
  {
  }

  lemma RecordJsonWellFormed(record: Chain.Record, event: Scanner.Json)
    requires Scanner.WellFormed(event)
    ensures Scanner.WellFormed(RecordJson(record, event))
  {
    NameIsPlain("event");
    NameIsPlain("previousDigest");
    NameIsPlain("digest");
    var j := RecordJson(record, event);
    assert forall i :: 0 <= i < 3 ==> Scanner.UnitsOk(j.members[i].name) && Scanner.WellFormed(j.members[i].value);
  }

  const QUOTE: Bytes := [Scanner.QUOTE]
  const COLON: Bytes := [Scanner.COLON]
  const COMMA: Bytes := [Scanner.COMMA]

  lemma QuotedRender(bytes: Bytes)
    ensures Scanner.RenderText(PlainUnits(bytes)) == QUOTE + bytes + QUOTE
  {
    PlainUnitsRender(bytes);
  }

  lemma ThreeMembersRender(a: Scanner.Member, b: Scanner.Member, c: Scanner.Member)
    ensures Scanner.RenderMembers([a, b, c]) ==
            Scanner.RenderText(a.name) + COLON + Scanner.Render(a.value) + (COMMA
            + (Scanner.RenderText(b.name) + COLON + Scanner.Render(b.value) + (COMMA
            + (Scanner.RenderText(c.name) + COLON + Scanner.Render(c.value)))))
  {
    assert [a, b, c][1..] == [b, c] && [b, c][1..] == [c];
    assert Scanner.RenderMembers([c]) == Scanner.RenderText(c.name) + COLON + Scanner.Render(c.value) + [];
    assert Scanner.RenderMembers([b, c]) ==
           Scanner.RenderText(b.name) + COLON + Scanner.Render(b.value) + (COMMA + Scanner.RenderMembers([c]));
  }

  lemma EventPunctuation()
    ensures [Scanner.OPEN_OBJECT] + QUOTE + Ascii("event") + QUOTE + COLON == Ascii("{\"event\":")
  {
  }

  lemma PreviousPunctuation()
    ensures COMMA + QUOTE + Ascii("previousDigest") + QUOTE + COLON + QUOTE == Ascii(",\"previousDigest\":\"")
  {
  }

  lemma DigestPunctuation()
    ensures QUOTE + COMMA + QUOTE + Ascii("digest") + QUOTE + COLON + QUOTE == Ascii("\",\"digest\":\"")
    ensures QUOTE + [Scanner.CLOSE_OBJECT] == Ascii("\"}")
  {
  }

  /** Moving the brackets of a record's text. */
  lemma Regroup(event: Bytes, previous: Bytes, digest: Bytes)
    ensures [Scanner.OPEN_OBJECT]
            + (QUOTE + Ascii("event") + QUOTE + COLON + event + (COMMA
               + (QUOTE + Ascii("previousDigest") + QUOTE + COLON + (QUOTE + previous + QUOTE) + (COMMA
                  + (QUOTE + Ascii("digest") + QUOTE + COLON + (QUOTE + digest + QUOTE))))))
            + [Scanner.CLOSE_OBJECT]
            == ([Scanner.OPEN_OBJECT] + QUOTE + Ascii("event") + QUOTE + COLON) + event
               + (COMMA + QUOTE + Ascii("previousDigest") + QUOTE + COLON + QUOTE) + previous
               + (QUOTE + COMMA + QUOTE + Ascii("digest") + QUOTE + COLON + QUOTE) + digest
               + (QUOTE + [Scanner.CLOSE_OBJECT])
  {
    hide Ascii;
    var first := QUOTE + Ascii("event") + QUOTE + COLON;
    var second := QUOTE + Ascii("previousDigest") + QUOTE + COLON;
    var third := QUOTE + Ascii("digest") + QUOTE + COLON;
    NestedParts([Scanner.OPEN_OBJECT], first, event, COMMA, second, QUOTE, previous, third, digest,
                [Scanner.CLOSE_OBJECT]);
    FlatParts([Scanner.OPEN_OBJECT], first, event, COMMA, second, QUOTE, previous, third, digest,
              [Scanner.CLOSE_OBJECT]);
    assert [Scanner.OPEN_OBJECT] + QUOTE + Ascii("event") + QUOTE + COLON == [Scanner.OPEN_OBJECT] + first;
    assert COMMA + QUOTE + Ascii("previousDigest") + QUOTE + COLON + QUOTE == COMMA + second + QUOTE;
    assert QUOTE + COMMA + QUOTE + Ascii("digest") + QUOTE + COLON + QUOTE == QUOTE + COMMA + third + QUOTE;
  }

  lemma Assoc(a: Bytes, b: Bytes, c: Bytes)
    ensures a + b + c == a + (b + c)
  {
  }

  /** All brackets to the right. */
  function InARow(o: Bytes, f: Bytes, e: Bytes, k: Bytes, s: Bytes, q: Bytes, p: Bytes, t: Bytes, d: Bytes,
                  c: Bytes): Bytes {
    o + (f + (e + (k + (s + (q + (p + (q + (k + (t + (q + (d + (q + c))))))))))))
  }

  lemma NestedParts(o: Bytes, f: Bytes, e: Bytes, k: Bytes, s: Bytes, q: Bytes, p: Bytes, t: Bytes, d: Bytes, c: Bytes)
    ensures o + (f + e + (k + (s + (q + p + q) + (k + (t + (q + d + q)))))) + c == InARow(o, f, e, k, s, q, p, t, d, c)
  {
    var last := q + d + q;
    Assoc(q + d, q, c);
    Assoc(q, d, q + c);
    Assoc(t, last, c);
    Assoc(k, t + last, c);
    var rest := k + (t + last);
    var middle := q + p + q;
    Assoc(s + middle, rest, c);
    Assoc(s, middle, rest + c);
    Assoc(q + p, q, rest + c);
    Assoc(q, p, q + (rest + c));
    Assoc(k, s + middle + rest, c);
    var all := k + (s + middle + rest);
    Assoc(f + e, all, c);
    Assoc(f, e, all + c);
    Assoc(o, f + e + all, c);
  }

  lemma FlatParts(o: Bytes, f: Bytes, e: Bytes, k: Bytes, s: Bytes, q: Bytes, p: Bytes, t: Bytes, d: Bytes, c: Bytes)
    ensures (o + f) + e + (k + s + q) + p + (q + k + t + q) + d + (q + c) == InARow(o, f, e, k, s, q, p, t, d, c)
  {
    var end := d + (q + c);
    var x := (o + f) + e;
    Assoc(x + (k + s + q) + p + (q + k + t + q), d, q + c);
    Assoc(x + (k + s + q) + p, q + k + t + q, end);
    Assoc(q + k + t, q, end);
    Assoc(q + k, t, q + end);
    Assoc(q, k, t + (q + end));
    var late := q + (k + (t + (q + end)));
    Assoc(x + (k + s + q), p, late);
    Assoc(x, k + s + q, p + late);
    Assoc(k + s, q, p + late);
    Assoc(k, s, q + (p + late));
    Assoc(o + f, e, k + (s + (q + (p + late))));
    Assoc(o, f, e + (k + (s + (q + (p + late)))));
  }

  lemma RecordJsonRenders(record: Chain.Record, event: Scanner.Json)
    requires Scanner.Render(event) == record.event.canonical
    ensures Scanner.Render(RecordJson(record, event)) == RecordText(record)
  {
    var members := RecordJson(record, event).members;
    QuotedRender(Ascii("event"));
    QuotedRender(Ascii("previousDigest"));
    QuotedRender(Ascii("digest"));
    QuotedRender(DigestText(record.previousDigest));
    QuotedRender(DigestText(record.digest));
    ThreeMembersRender(members[0], members[1], members[2]);
    assert members == [members[0], members[1], members[2]];
    Regroup(record.event.canonical, DigestText(record.previousDigest), DigestText(record.digest));
    EventPunctuation();
    PreviousPunctuation();
    DigestPunctuation();
  }

  /** The scanner finds exactly as many records as the segment has, for any events that are JSON objects. */
  lemma SegmentIsCounted(records: seq<Chain.Record>, events: seq<Scanner.Json>)
    requires |events| == |records| <= Chain.MAX_SEGMENT_EVENTS
    requires forall i :: 0 <= i < |records| ==>
               Scanner.WellFormed(events[i]) && Scanner.Render(events[i]) == records[i].event.canonical
    ensures Scanner.Preflight(Ascii(Chain.SEGMENT_PREFIX), SegmentText(records)) == (|records|, Scanner.Counted)
  {
    var jsons := seq(|records|, i requires 0 <= i < |records| => RecordJson(records[i], events[i]));
    forall i | 0 <= i < |records|
      ensures jsons[i].Object? && Scanner.WellFormed(jsons[i])
      ensures Scanner.RenderAll(jsons)[i] == RecordTexts(records)[i]
    {
      RecordJsonWellFormed(records[i], events[i]);
      RecordJsonRenders(records[i], events[i]);
    }
    assert Scanner.RenderAll(jsons) == RecordTexts(records);
    Scanner.RecordsAreCounted(Ascii(Chain.SEGMENT_PREFIX), jsons);
  }

  // ----- digests are readable

  lemma SymbolsDiffer(x: nat, y: nat)
    requires x < 64 && y < 64 && Symbol(x) == Symbol(y)
    ensures x == y
  {
  }

  /** The sextets determine the bytes. */
  lemma SextetsHoldBytes(a: Byte, b: Byte, c: Byte, x: Byte, y: Byte, z: Byte)
    requires First(a) == First(x) && Second(a, b) == Second(x, y)
    ensures a == x && b / 16 == y / 16
    ensures Third(b, c) == Third(y, z) ==> b == y && c / 64 == z / 64
    ensures Third(b, c) == Third(y, z) && Fourth(c) == Fourth(z) ==> c == z
  {
  }

  function ByteAt(a: Bytes, i: nat): Byte {
    if i < |a| then a[i] else 0
  }

  /** How the text of some bytes starts, missing ones counted as zero. */
  lemma Base64Starts(a: Bytes)
    requires a != []
    ensures var text := Base64(a);
            && |text| >= 2 && text[0] == Symbol(First(a[0])) && text[1] == Symbol(Second(a[0], ByteAt(a, 1)))
            && (|a| > 1 ==> |text| >= 3 && text[2] == Symbol(Third(a[1], ByteAt(a, 2))))
            && (|a| > 2 ==> |text| >= 4 && text[3] == Symbol(Fourth(a[2])) && text[4..] == Base64(a[3..]))
  {
    hide Symbol, First, Second, Third, Fourth;
  }

  lemma SameStart(a: Bytes, b: Bytes)
    requires a != [] && |a| == |b| && Base64(a) == Base64(b)
    ensures ByteAt(a, 0) == ByteAt(b, 0) && ByteAt(a, 1) == ByteAt(b, 1) && ByteAt(a, 2) == ByteAt(b, 2)
    ensures |a| > 2 ==> Base64(a[3..]) == Base64(b[3..])
  {
    Base64Starts(a);
    Base64Starts(b);
    hide Base64, Symbol, First, Second, Third, Fourth;
    SymbolsDiffer(First(a[0]), First(b[0]));
    SymbolsDiffer(Second(a[0], ByteAt(a, 1)), Second(b[0], ByteAt(b, 1)));
    if |a| > 1 { SymbolsDiffer(Third(a[1], ByteAt(a, 2)), Third(b[1], ByteAt(b, 2))); }
    if |a| > 2 { SymbolsDiffer(Fourth(a[2]), Fourth(b[2])); }
    SextetsHoldBytes(a[0], ByteAt(a, 1), ByteAt(a, 2), b[0], ByteAt(b, 1), ByteAt(b, 2));
  }

  lemma {:induction false} Base64Injective(a: Bytes, b: Bytes)
    requires Base64(a) == Base64(b)
    ensures a == b
  {
    hide Base64;
    assert |a| == |b|;
    if a != [] {
      SameStart(a, b);
      if |a| > 2 {
        Base64Injective(a[3..], b[3..]);
        assert a == a[..3] + a[3..] && b == b[..3] + b[3..];
      }
    }
  }

  /** The text of a digest determines the digest. */
  lemma DigestTextInjective(a: Digest, b: Digest)
    requires DigestText(a) == DigestText(b)
    ensures a == b
  {
    var n := |DIGEST_PREFIX|;
    assert DigestText(a)[n..] == Base64(a) && DigestText(b)[n..] == Base64(b);
    Base64Injective(a, b);
  }
}
