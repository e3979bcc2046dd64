/** The byte scanner that counts the records of an encoded segment before anything is decoded.

    It follows strings, escapes and nesting only, so it is compared with the text of arbitrary JSON. */
module SegmentScanner {
  import opened Wrappers
  import opened Framing

  const MAX_RECORDS := 1_000

  const QUOTE: Byte := 34
  const COMMA: Byte := 44
  const COLON: Byte := 58
  const OPEN_LIST: Byte := 91
  const BACKSLASH: Byte := 92
  const CLOSE_LIST: Byte := 93
  const OPEN_OBJECT: Byte := 123
  const CLOSE_OBJECT: Byte := 125

  // ----- JSON texts

  /** String content: a byte that stands for itself, or a backslash and the byte after it. */
  datatype Unit = Plain(b: Byte) | Escape(b: Byte)

  datatype Json =
    | Literal(bytes: Bytes)
    | Text(units: seq<Unit>)
    | List(items: seq<Json>)
    | Object(members: seq<Member>)

  datatype Member = Member(name: seq<Unit>, value: Json)

  predicate Structural(b: Byte) {
    b in [QUOTE, OPEN_LIST, CLOSE_LIST, OPEN_OBJECT, CLOSE_OBJECT]
  }

  predicate UnitsOk(units: seq<Unit>) {
    forall i :: 0 <= i < |units| && units[i].Plain? ==> units[i].b != QUOTE && units[i].b != BACKSLASH
  }

  /** Numbers and the words true, false and null carry no quote and no bracket. */
  ghost predicate WellFormed(j: Json) {
    match j
    case Literal(bytes) => forall i :: 0 <= i < |bytes| ==> !Structural(bytes[i])
    case Text(units) => UnitsOk(units)
    case List(items) => forall i :: 0 <= i < |items| ==> WellFormed(items[i])
    case Object(members) => forall i :: 0 <= i < |members| ==> UnitsOk(members[i].name) && WellFormed(members[i].value)
  }

  function RenderUnits(units: seq<Unit>): Bytes {
    if units == [] then []
    else (match units[0] case Plain(b) => [b] case Escape(b) => [BACKSLASH, b]) + RenderUnits(units[1..])
  }

  function RenderText(units: seq<Unit>): Bytes {
    [QUOTE] + RenderUnits(units) + [QUOTE]
  }

  function Render(j: Json): Bytes
    decreases j, 1
  {
    match j
    case Literal(bytes) => bytes
    case Text(units) => RenderText(units)
    case List(items) => [OPEN_LIST] + RenderItems(items) + [CLOSE_LIST]
    case Object(members) => [OPEN_OBJECT] + RenderMembers(members) + [CLOSE_OBJECT]
  }

  function RenderItems(items: seq<Json>): Bytes
    decreases items, 0
  {
    if items == [] then []
    else if |items| == 1 then Render(items[0])
    else Render(items[0]) + [COMMA] + RenderItems(items[1..])
  }

  function RenderMembers(members: seq<Member>): Bytes
    decreases members, 0
  {
    if members == [] then []
    else
      RenderText(members[0].name) + [COLON] + Render(members[0].value)
      + (if |members| == 1 then [] else [COMMA] + RenderMembers(members[1..]))
  }

  // ----- the scanner as an automaton

  datatype Mode = Mode(depth: int, inString: bool, escaped: bool)

  const OUTSIDE := Mode(0, false, false)

  predicate Closes(m: Mode, b: Byte) {
    !m.inString && (b == CLOSE_OBJECT || b == CLOSE_LIST)
  }

  function Advance(m: Mode, b: Byte): Mode {
    if m.inString then
      if m.escaped then m.(escaped := false)
      else if b == BACKSLASH then m.(escaped := true)
      else if b == QUOTE then m.(inString := false)
      else m
    else if b == QUOTE then m.(inString := true)
    else if b == OPEN_OBJECT || b == OPEN_LIST then m.(depth := m.depth + 1)
    else if b == CLOSE_OBJECT || b == CLOSE_LIST then m.(depth := m.depth - 1)
    else m
  }

  /** Reads on without ever leaving the record; None when a bracket closes it. */
  function Scan(m: Mode, bytes: Bytes): Option<Mode>
    decreases |bytes|
  {
    if bytes == [] then Some(m)
    else if Closes(m, bytes[0]) && m.depth <= 1 then None
    else Scan(Advance(m, bytes[0]), bytes[1..])
  }

  lemma {:induction false} ScanConcat(m: Mode, a: Bytes, b: Bytes)
    ensures Scan(m, a + b) == match Scan(m, a) case None => None case Some(next) => Scan(next, b)
    decreases |a|
  {
    if a == [] {
      assert a + b == b;
    } else {
      assert (a + b)[1..] == a[1..] + b;
      if !(Closes(m, a[0]) && m.depth <= 1) {
        ScanConcat(Advance(m, a[0]), a[1..], b);
      }
    }
  }

  lemma ScanOne(m: Mode, b: Byte)
    ensures Scan(m, [b]) == if Closes(m, b) && m.depth <= 1 then None else Some(Advance(m, b))
  {
    assert [b][1..] == [];
  }

  /** Three pieces in a row, each of which leaves the record open. */
  lemma ScanThree(m: Mode, a: Bytes, b: Bytes, c: Bytes, m1: Mode, m2: Mode)
    requires Scan(m, a) == Some(m1) && Scan(m1, b) == Some(m2)
    ensures Scan(m, a + b + c) == Scan(m2, c)
  {
    ScanConcat(m, a, b);
    ScanConcat(m, a + b, c);
  }

  lemma {:induction false} ScanUnits(depth: int, units: seq<Unit>)
    requires UnitsOk(units)
    ensures Scan(Mode(depth, true, false), RenderUnits(units)) == Some(Mode(depth, true, false))
  {
    var m := Mode(depth, true, false);
    if units != [] {
      var head := match units[0] case Plain(b) => [b] case Escape(b) => [BACKSLASH, b];
      ScanUnits(depth, units[1..]);
      ScanConcat(m, head, RenderUnits(units[1..]));
      match units[0]
      case Plain(b) => ScanOne(m, b);
      case Escape(b) =>
        ScanOne(m, BACKSLASH);
        ScanOne(Mode(depth, true, true), b);
        ScanConcat(m, [BACKSLASH], [b]);
        assert [BACKSLASH] + [b] == head;
    }
  }

  lemma ScanText(depth: int, units: seq<Unit>)
    requires UnitsOk(units)
    ensures Scan(Mode(depth, false, false), RenderText(units)) == Some(Mode(depth, false, false))
  {
    var outside, inside := Mode(depth, false, false), Mode(depth, true, false);
    ScanOne(outside, QUOTE);
    ScanUnits(depth, units);
    ScanThree(outside, [QUOTE], RenderUnits(units), [QUOTE], inside, inside);
    ScanOne(inside, QUOTE);
  }

  lemma {:induction false} ScanLiteral(depth: int, bytes: Bytes)
    requires forall i :: 0 <= i < |bytes| ==> !Structural(bytes[i])
    ensures Scan(Mode(depth, false, false), bytes) == Some(Mode(depth, false, false))
  {
    if bytes != [] {
      assert !Structural(bytes[0]);
      ScanLiteral(depth, bytes[1..]);
    }
  }

  /** Inside a record, the text of any JSON value brings the scanner back to where it was. */
  lemma {:induction false} ScanValue(depth: int, j: Json)
    requires depth >= 1 && WellFormed(j)
    ensures Scan(Mode(depth, false, false), Render(j)) == Some(Mode(depth, false, false))
    decreases j, 1
  {
    var m, deeper := Mode(depth, false, false), Mode(depth + 1, false, false);
    match j
    case Literal(bytes) => ScanLiteral(depth, bytes);
    case Text(units) => ScanText(depth, units);
    case List(items) =>
      ScanOne(m, OPEN_LIST);
      ScanItems(depth + 1, items);
      ScanThree(m, [OPEN_LIST], RenderItems(items), [CLOSE_LIST], deeper, deeper);
      ScanOne(deeper, CLOSE_LIST);
    case Object(members) =>
      ScanOne(m, OPEN_OBJECT);
      ScanMembers(depth + 1, members);
      ScanThree(m, [OPEN_OBJECT], RenderMembers(members), [CLOSE_OBJECT], deeper, deeper);
      ScanOne(deeper, CLOSE_OBJECT);
  }

  lemma {:induction false} ScanItems(depth: int, items: seq<Json>)
    requires depth >= 1 && forall i :: 0 <= i < |items| ==> WellFormed(items[i])
    ensures Scan(Mode(depth, false, false), RenderItems(items)) == Some(Mode(depth, false, false))
    decreases items, 0
  {
    var m := Mode(depth, false, false);
    if items != [] {
      ScanValue(depth, items[0]);
      if |items| > 1 {
        ScanOne(m, COMMA);
        ScanItems(depth, items[1..]);
        ScanThree(m, Render(items[0]), [COMMA], RenderItems(items[1..]), m, m);
      }
    }
  }

  lemma {:induction false} ScanMembers(depth: int, members: seq<Member>)
    requires depth >= 1
    requires forall i :: 0 <= i < |members| ==> UnitsOk(members[i].name) && WellFormed(members[i].value)
    ensures Scan(Mode(depth, false, false), RenderMembers(members)) == Some(Mode(depth, false, false))
    decreases members, 0
  {
    var m := Mode(depth, false, false);
    if members != [] {
      var head := RenderText(members[0].name) + [COLON] + Render(members[0].value);
      var rest := if |members| == 1 then [] else [COMMA] + RenderMembers(members[1..]);
      ScanText(depth, members[0].name);
      ScanOne(m, COLON);
      ScanValue(depth, members[0].value);
      ScanThree(m, RenderText(members[0].name), [COLON], Render(members[0].value), m, m);
      if |members| > 1 {
        ScanOne(m, COMMA);
        ScanMembers(depth, members[1..]);
        ScanConcat(m, [COMMA], RenderMembers(members[1..]));
      }
      ScanConcat(m, head, rest);
      assert RenderMembers(members) == head + rest;
    }
  }

  // ----- records and their count

  /** The position after the bracket that closes the record, if it is ever closed. */
  function RecordEnd(data: Bytes, index: nat, m: Mode): Option<nat>
    decreases |data| - index
  {
    if index >= |data| then None
    else
      var next := Advance(m, data[index]);
      if Closes(m, data[index]) && next.depth == 0 then Some(index + 1)
      else if Closes(m, data[index]) && next.depth < 0 then None
      else RecordEnd(data, index + 1, next)
  }

  datatype Outcome = Counted | NonCanonical | TooLarge

  /** Counts the records from a position that should start one. */
  function CountFrom(data: Bytes, index: nat, count: nat): (nat, Outcome)
    decreases |data| - index
  {
    if index >= |data| || data[index] != OPEN_OBJECT then (0, NonCanonical)
    else if count + 1 > MAX_RECORDS then (count + 1, TooLarge)
    else
      match RecordEnd(data, index, OUTSIDE)
      case None => (0, NonCanonical)
      case Some(next) => if index < next then CountAfter(data, next, count + 1) else (0, NonCanonical)
  }

  /** What may follow a record: a comma and another record, or the closing and the end. */
  function CountAfter(data: Bytes, next: nat, count: nat): (nat, Outcome)
    decreases |data| - next
  {
    if next >= |data| then (0, NonCanonical)
    else if data[next] == COMMA then CountFrom(data, next + 1, count)
    else if data[next] == CLOSE_LIST && next + 2 == |data| && data[next + 1] == CLOSE_OBJECT then (count, Counted)
    else (0, NonCanonical)
  }

  function Preflight(prefix: Bytes, data: Bytes): (nat, Outcome) {
    if !(prefix <= data) then (0, NonCanonical)
    else if data[|prefix|..] == [CLOSE_LIST, CLOSE_OBJECT] then (0, Counted)
    else CountFrom(data, |prefix|, 0)
  }

  /** A byte that does not close the record moves the scanner on by one. */
  lemma RecordGoesOn(data: Bytes, index: nat, m: Mode)
    requires index < |data| && (Closes(m, data[index]) ==> m.depth > 1)
    ensures RecordEnd(data, index, m) == RecordEnd(data, index + 1, Advance(m, data[index]))
  {
  }

  /** A bracket at depth one ends the record; above that, it breaks it. */
  lemma RecordStops(data: Bytes, index: nat, m: Mode)
    requires index < |data| && Closes(m, data[index]) && m.depth <= 1
    ensures RecordEnd(data, index, m) == if m.depth == 1 then Some(index + 1) else None
  {
  }

  method SkipRecord(data: Bytes, start: nat) returns (end: Option<nat>)
    requires start < |data|
    ensures end == RecordEnd(data, start, OUTSIDE)
  {
    var index, depth, inString, escaped := start, 0, false, false;
    while index < |data|
      invariant start <= index <= |data|
      invariant RecordEnd(data, index, Mode(depth, inString, escaped)) == RecordEnd(data, start, OUTSIDE)
    {
      var current := data[index];
      ghost var before := Mode(depth, inString, escaped);
      if inString {
        if escaped {
          escaped := false;
        } else if current == BACKSLASH {
          escaped := true;
        } else if current == QUOTE {
          inString := false;
        }
      } else if current == QUOTE {
        inString := true;
      } else if current == OPEN_OBJECT || current == OPEN_LIST {
        depth := depth + 1;
      } else if current == CLOSE_OBJECT || current == CLOSE_LIST {
        depth := depth - 1;
        if depth <= 0 {
          RecordStops(data, index, before);
          return if depth == 0 then Some(index + 1) else None;
        }
      }
      assert Mode(depth, inString, escaped) == Advance(before, current);
      RecordGoesOn(data, index, before);
      index := index + 1;
    }
    return None;
  }

  lemma {:induction false} RecordEndAdvances(data: Bytes, index: nat, m: Mode)
    ensures var end := RecordEnd(data, index, m); end.Some? ==> index < end.value <= |data|
    decreases |data| - index
  {
    if index < |data| {
      RecordEndAdvances(data, index + 1, Advance(m, data[index]));
    }
  }

  method CountRecords(data: Bytes, start: nat) returns (count: nat, outcome: Outcome)
    ensures (count, outcome) == CountFrom(data, start, 0)
  {
    var index := start;
    count := 0;
    while true
      invariant CountFrom(data, index, count) == CountFrom(data, start, 0)
      decreases |data| - index
    {
      if index >= |data| || data[index] != OPEN_OBJECT {
        return 0, NonCanonical;
      }
      if count + 1 > MAX_RECORDS {
        return count + 1, TooLarge;
      }
      var end := SkipRecord(data, index);
      RecordEndAdvances(data, index, OUTSIDE);
      if end.None? {
        return 0, NonCanonical;
      }
      assert CountFrom(data, index, count) == CountAfter(data, end.value, count + 1);
      count := count + 1;
      index := end.value;
      if index >= |data| {
        return 0, NonCanonical;
      }
      if data[index] == CLOSE_LIST && index + 2 == |data| && data[index + 1] == CLOSE_OBJECT {
        return count, Counted;
      }
      if data[index] != COMMA {
        return 0, NonCanonical;
      }
      index := index + 1;
    }
  }

  method PreflightSegmentCount(prefix: Bytes, data: Bytes) returns (count: nat, outcome: Outcome)
    ensures (count, outcome) == Preflight(prefix, data)
  {
    if !(prefix <= data) {
      return 0, NonCanonical;
    }
    var index := |prefix|;
    if index + 2 == |data| && data[index] == CLOSE_LIST && data[index + 1] == CLOSE_OBJECT {
      assert data[|prefix|..] == [CLOSE_LIST, CLOSE_OBJECT];
      return 0, Counted;
    }
    count, outcome := CountRecords(data, index);
  }

  // ----- exactly which data is counted

  /** The scanner's own view: starts with a brace, and its last byte is the first that closes it. */
  predicate Closed(chunk: Bytes) {
    chunk != [] && chunk[0] == OPEN_OBJECT && RecordEnd(chunk, 0, OUTSIDE) == Some(|chunk|)
  }

  function Joined(chunks: seq<Bytes>): Bytes {
    if chunks == [] then []
    else if |chunks| == 1 then chunks[0]
    else chunks[0] + [COMMA] + Joined(chunks[1..])
  }

  const CLOSING: Bytes := [CLOSE_LIST, CLOSE_OBJECT]

  /** The scanner looks at nothing after the closing bracket and nothing before the opening one. */
  lemma {:induction false} RecordEndIsLocal(data: Bytes, start: nat, index: nat, m: Mode, chunk: Bytes)
    requires start <= index && start + |chunk| <= |data| && data[start..start + |chunk|] == chunk
    requires index <= start + |chunk|
    ensures var end, local := RecordEnd(data, index, m), RecordEnd(chunk, index - start, m);
            && (local.Some? ==> end == Some(start + local.value))
            && (end.Some? && end.value <= start + |chunk| ==> local == Some(end.value - start))
    decreases |data| - index
  {
    if index < start + |chunk| {
      assert data[index] == chunk[index - start];
      RecordEndIsLocal(data, start, index + 1, Advance(m, data[index]), chunk);
    } else {
      RecordEndAdvances(data, index, m);
    }
  }

  lemma FirstChunk(data: Bytes, index: nat, chunk: Bytes, rest: Bytes)
    requires index <= |data| && data[index..] == chunk + rest && Closed(chunk)
    ensures index + |chunk| <= |data| && data[index] == OPEN_OBJECT
    ensures RecordEnd(data, index, OUTSIDE) == Some(index + |chunk|)
    ensures data[index + |chunk|..] == rest
  {
    var next := index + |chunk|;
    assert data[index..next] == data[index..][..|chunk|] == chunk;
    assert data[next..] == data[index..][|chunk|..] == rest;
    assert data[index] == data[index..][0];
    RecordEndIsLocal(data, index, index, OUTSIDE, chunk);
  }

  lemma CountsAnother(data: Bytes, index: nat, next: nat, count: nat)
    requires index < next < |data| && data[index] == OPEN_OBJECT && RecordEnd(data, index, OUTSIDE) == Some(next)
    requires count < MAX_RECORDS && data[next] == COMMA
    ensures CountFrom(data, index, count) == CountFrom(data, next + 1, count + 1)
  {
  }

  lemma CountsLast(data: Bytes, index: nat, next: nat, count: nat)
    requires index < next < |data| && data[index] == OPEN_OBJECT && RecordEnd(data, index, OUTSIDE) == Some(next)
    requires count < MAX_RECORDS && data[next..] == CLOSING
    ensures CountFrom(data, index, count) == (count + 1, Counted)
  {
    assert data[next] == data[next..][0] && data[next + 1] == data[next..][1];
  }

  lemma CountStops(data: Bytes, index: nat, count: nat)
    requires index < |data| && data[index] == OPEN_OBJECT && count == MAX_RECORDS
    ensures CountFrom(data, index, count) == (MAX_RECORDS + 1, TooLarge)
  {
  }

  /** The outcome for n more records after count of them. */
  function Tally(count: nat, n: nat): (nat, Outcome) {
    if count + n <= MAX_RECORDS then (count + n, Counted) else (MAX_RECORDS + 1, TooLarge)
  }

  lemma {:induction false} CountsJoined(data: Bytes, index: nat, chunks: seq<Bytes>, count: nat)
    requires index <= |data| && data[index..] == Joined(chunks) + CLOSING && chunks != [] && count <= MAX_RECORDS
    requires forall i :: 0 <= i < |chunks| ==> Closed(chunks[i])
    ensures CountFrom(data, index, count) == Tally(count, |chunks|)
    decreases |chunks|
  {
    hide CountFrom, RecordEnd, Closed;
    var next := index + |chunks[0]|;
    if |chunks| == 1 {
      FirstChunk(data, index, chunks[0], CLOSING);
      if count < MAX_RECORDS {
        CountsLast(data, index, next, count);
      } else {
        CountStops(data, index, count);
      }
    } else {
      FirstOfMany(data, index, chunks);
      if count < MAX_RECORDS {
        CountsAnother(data, index, next, count);
        CountsJoined(data, next + 1, chunks[1..], count + 1);
      } else {
        CountStops(data, index, count);
      }
    }
  }

  lemma FirstOfMany(data: Bytes, index: nat, chunks: seq<Bytes>)
    requires index <= |data| && data[index..] == Joined(chunks) + CLOSING && |chunks| > 1 && Closed(chunks[0])
    ensures var next := index + |chunks[0]|;
            && next < |data| && data[index] == OPEN_OBJECT && RecordEnd(data, index, OUTSIDE) == Some(next)
            && data[next] == COMMA && data[next + 1..] == Joined(chunks[1..]) + CLOSING
  {
    var next := index + |chunks[0]|;
    var rest := [COMMA] + (Joined(chunks[1..]) + CLOSING);
    assert data[index..] == chunks[0] + rest;
    FirstChunk(data, index, chunks[0], rest);
    assert data[next] == data[next..][0];
    assert data[next + 1..] == data[next..][1..];
  }

  lemma CountedChunk(data: Bytes, index: nat, count: nat) returns (chunk: Bytes, next: nat)
    requires index <= |data| && CountFrom(data, index, count).1.Counted?
    ensures index < next < |data| && chunk == data[index..next] && Closed(chunk) && count < MAX_RECORDS
    ensures CountFrom(data, index, count) == CountAfter(data, next, count + 1)
  {
    hide RecordEnd, Advance;
    next := RecordEnd(data, index, OUTSIDE).value;
    RecordEndAdvances(data, index, OUTSIDE);
    chunk := data[index..next];
    RecordEndIsLocal(data, index, index, OUTSIDE, chunk);
  }

  lemma JoinsOn(data: Bytes, index: nat, next: nat, chunk: Bytes, others: seq<Bytes>)
    requires index < next < |data| && chunk == data[index..next] && data[next] == COMMA
    requires others != [] && data[next + 1..] == Joined(others) + CLOSING
    ensures data[index..] == Joined([chunk] + others) + CLOSING
  {
    var chunks := [chunk] + others;
    assert chunks[1..] == others;
    assert data[index..] == chunk + ([data[next]] + data[next + 1..]);
    assert Joined(chunks) + CLOSING == chunk + ([COMMA] + (Joined(others) + CLOSING));
  }

  lemma {:induction false} CountedIsJoined(data: Bytes, index: nat, count: nat) returns (chunks: seq<Bytes>)
    requires index <= |data| && CountFrom(data, index, count).1.Counted?
    ensures chunks != [] && (forall i :: 0 <= i < |chunks| ==> Closed(chunks[i]))
    ensures data[index..] == Joined(chunks) + CLOSING
    ensures CountFrom(data, index, count).0 == count + |chunks| <= MAX_RECORDS
    decreases |data| - index
  {
    hide CountFrom, Closed;
    var chunk, next := CountedChunk(data, index, count);
    if data[next] == COMMA {
      var others := CountedIsJoined(data, next + 1, count + 1);
      chunks := [chunk] + others;
      JoinsOn(data, index, next, chunk, others);
    } else {
      chunks := [chunk];
      assert data[index..] == chunk + [data[next], data[next + 1]];
    }
  }

  lemma JoinedStart(chunks: seq<Bytes>)
    requires chunks != [] && Closed(chunks[0])
    ensures var text := Joined(chunks) + CLOSING; |text| > 0 && text[0] == OPEN_OBJECT
  {
  }

  lemma PreflightCounts(prefix: Bytes, data: Bytes)
    requires prefix <= data && |data| > |prefix| && data[|prefix|] == OPEN_OBJECT
    ensures Preflight(prefix, data) == CountFrom(data, |prefix|, 0)
  {
    assert data[|prefix|..][0] == OPEN_OBJECT;
  }

  lemma NoRecordsCounted(prefix: Bytes)
    ensures Preflight(prefix, prefix + CLOSING) == (0, Counted)
  {
    assert (prefix + CLOSING)[|prefix|..] == CLOSING;
  }

  lemma SomeRecordsStart(prefix: Bytes, text: Bytes)
    requires |text| > 0 && text[0] == OPEN_OBJECT
    ensures Preflight(prefix, prefix + text) == CountFrom(prefix + text, |prefix|, 0)
    ensures (prefix + text)[|prefix|..] == text
  {
    PreflightCounts(prefix, prefix + text);
  }

  lemma JoinedIsCounted(prefix: Bytes, chunks: seq<Bytes>)
    requires forall i :: 0 <= i < |chunks| ==> Closed(chunks[i])
    ensures Preflight(prefix, prefix + (Joined(chunks) + CLOSING)) ==
            Tally(0, |chunks|)
  {
    var text := Joined(chunks) + CLOSING;
    if chunks == [] {
      assert text == CLOSING;
      NoRecordsCounted(prefix);
    } else {
      JoinedStart(chunks);
      SomeRecordsStart(prefix, text);
      CountsJoined(prefix + text, |prefix|, chunks, 0);
    }
  }

  // ----- balanced chunks, without the scanner

  /** Any text without a dangling string is a row of string literals and other bytes. */
  datatype Piece = Str(units: seq<Unit>) | Sym(b: Byte)

  predicate PieceOk(p: Piece) {
    match p
    case Str(units) => UnitsOk(units)
    case Sym(b) => b != QUOTE
  }

  function Spelled(pieces: seq<Piece>): Bytes {
    if pieces == [] then []
    else (match pieces[0] case Str(units) => RenderText(units) case Sym(b) => [b]) + Spelled(pieces[1..])
  }

  function Weight(p: Piece): int {
    if p == Sym(OPEN_OBJECT) || p == Sym(OPEN_LIST) then 1
    else if p == Sym(CLOSE_OBJECT) || p == Sym(CLOSE_LIST) then -1
    else 0
  }

  /** How many more brackets open than close, outside strings. */
  function Depth(pieces: seq<Piece>): int {
    if pieces == [] then 0 else Weight(pieces[0]) + Depth(pieces[1..])
  }

  ghost predicate PiecesOk(pieces: seq<Piece>) {
    forall i :: 0 <= i < |pieces| ==> PieceOk(pieces[i])
  }

  /** From a depth, these pieces reach zero with the last of them and not before. */
  ghost predicate Falls(pieces: seq<Piece>, depth: int) {
    && depth + Depth(pieces) == 0
    && forall k :: 0 <= k < |pieces| ==> depth + Depth(pieces[..k]) > 0
  }

  ghost predicate Spells(pieces: seq<Piece>, chunk: Bytes) {
    && pieces != [] && pieces[0] == Sym(OPEN_OBJECT) && PiecesOk(pieces) && Spelled(pieces) == chunk
    && Depth(pieces) == 0 && forall k :: 0 < k < |pieces| ==> Depth(pieces[..k]) > 0
  }

  /** A brace opens the chunk, and the depth outside strings is positive after every proper prefix and zero at the
      end. */
  ghost predicate Balanced(chunk: Bytes) {
    exists pieces :: Spells(pieces, chunk)
  }

  lemma FallsOn(pieces: seq<Piece>, depth: int)
    requires pieces != []
    ensures Falls(pieces, depth) <==>
            depth > 0 && (if |pieces| == 1 then depth + Weight(pieces[0]) == 0
                          else Falls(pieces[1..], depth + Weight(pieces[0])))
  {
    var rest := pieces[1..];
    assert |pieces| == 1 ==> rest == [];
    forall k | 0 <= k < |rest|
      ensures Depth(pieces[..k + 1]) == Weight(pieces[0]) + Depth(rest[..k])
    {
      assert pieces[..k + 1][1..] == rest[..k];
    }
    if Falls(pieces, depth) {
      assert depth + Depth(pieces[..0]) > 0;
    } else if depth > 0 && |pieces| > 1 && Falls(rest, depth + Weight(pieces[0])) {
      forall k | 0 <= k < |pieces|
        ensures depth + Depth(pieces[..k]) > 0
      {
        if k > 0 { assert depth + Weight(pieces[0]) + Depth(rest[..k - 1]) > 0; }
      }
    }
  }

  /** A chunk is a brace and pieces that fall from depth one. */
  lemma SpellsExactly(pieces: seq<Piece>, chunk: Bytes)
    ensures Spells(pieces, chunk) <==>
            && pieces != [] && pieces[0] == Sym(OPEN_OBJECT) && PiecesOk(pieces[1..])
            && Falls(pieces[1..], 1) && chunk == [OPEN_OBJECT] + Spelled(pieces[1..])
  {
    if pieces != [] && pieces[0] == Sym(OPEN_OBJECT) {
      var rest := pieces[1..];
      forall k | 0 <= k < |rest|
        ensures Depth(pieces[..k + 1]) == 1 + Depth(rest[..k])
      {
        assert pieces[..k + 1][1..] == rest[..k];
      }
      assert forall k :: 0 < k < |pieces| ==> Depth(pieces[..k]) == 1 + Depth(rest[..k - 1]);
      assert forall i :: 0 < i < |pieces| ==> pieces[i] == rest[i - 1];
    }
  }

  /** Pieces that fall from the present depth are read to their end. */
  lemma {:induction false} FallingIsRead(data: Bytes, index: nat, pieces: seq<Piece>, depth: int)
    requires index <= |data| && data[index..] == Spelled(pieces) && PiecesOk(pieces) && Falls(pieces, depth)
             && depth > 0
    ensures RecordEnd(data, index, Mode(depth, false, false)) == Some(|data|)
    decreases |pieces|
  {
    hide Falls, RecordEnd;
    var m := Mode(depth, false, false);
    NotEmpty(pieces, depth);
    FallsOn(pieces, depth);
    var head := match pieces[0] case Str(units) => RenderText(units) case Sym(b) => [b];
    var next := index + |head|;
    assert data[index..next] == head && data[next..] == Spelled(pieces[1..]) by {
      assert data[index..] == head + Spelled(pieces[1..]);
      assert data[index..next] == data[index..][..|head|];
      assert data[next..] == data[index..][|head|..];
    }
    assert PieceOk(pieces[0]);
    match pieces[0]
    case Str(units) =>
      ScanText(depth, units);
      StaysOpen(data, index, m, head, m);
      FallingIsRead(data, next, pieces[1..], depth);
    case Sym(b) =>
      assert data[index] == data[index..next][0] == b;
      if |pieces| == 1 {
        RecordStops(data, index, m);
      } else {
        FallsOn(pieces[1..], depth + Weight(pieces[0]));
        RecordGoesOn(data, index, m);
        FallingIsRead(data, next, pieces[1..], depth + Weight(pieces[0]));
      }
  }

  lemma NotEmpty(pieces: seq<Piece>, depth: int)
    requires Falls(pieces, depth) && depth != 0
    ensures pieces != []
  {
  }

  /** A string that the scanner leaves is a literal. */
  lemma {:induction false} StringIsLeft(data: Bytes, index: nat, depth: int) returns (units: seq<Unit>, next: nat)
    requires index <= |data| && RecordEnd(data, index, Mode(depth, true, false)) == Some(|data|)
    ensures index < next <= |data| && UnitsOk(units) && data[index..next] == RenderUnits(units) + [QUOTE]
    ensures RecordEnd(data, next, Mode(depth, false, false)) == Some(|data|)
    decreases |data| - index
  {
    if data[index] == QUOTE {
      units, next := [], index + 1;
    } else {
      var escape := data[index] == BACKSLASH;
      var after := if escape then index + 2 else index + 1;
      assert after <= |data| && RecordEnd(data, after, Mode(depth, true, false)) == Some(|data|);
      var rest;
      rest, next := StringIsLeft(data, after, depth);
      var unit := if escape then Escape(data[index + 1]) else Plain(data[index]);
      units := [unit] + rest;
      assert units[1..] == rest;
      assert data[index..next] == data[index..after] + data[after..next];
    }
  }

  lemma {:induction false} ReadIsFalling(data: Bytes, index: nat, depth: int) returns (pieces: seq<Piece>)
    requires index <= |data| && depth > 0 && RecordEnd(data, index, Mode(depth, false, false)) == Some(|data|)
    ensures data[index..] == Spelled(pieces) && PiecesOk(pieces) && Falls(pieces, depth)
    decreases |data| - index
  {
    var m := Mode(depth, false, false);
    var b := data[index];
    if b == QUOTE {
      var units, next := StringIsLeft(data, index + 1, depth);
      var rest := ReadIsFalling(data, next, depth);
      pieces := [Str(units)] + rest;
      assert pieces[1..] == rest;
      assert data[index..] == [b] + data[index + 1..next] + data[next..];
    } else if Closes(m, b) && depth == 1 {
      pieces := [Sym(b)];
      assert data[index..] == [b];
    } else {
      var rest := ReadIsFalling(data, index + 1, depth + Weight(Sym(b)));
      pieces := [Sym(b)] + rest;
      assert pieces[1..] == rest;
      assert data[index..] == [b] + data[index + 1..];
    }
    hide RecordEnd;
    FallsOn(pieces, depth);
  }

  /** The scanner closes a chunk with its last byte exactly when the chunk is balanced. */
  lemma ClosedExactlyWhenBalanced(chunk: Bytes)
    ensures Closed(chunk) <==> Balanced(chunk)
  {
    if Closed(chunk) {
      var rest := ReadIsFalling(chunk, 1, 1);
      var pieces := [Sym(OPEN_OBJECT)] + rest;
      assert pieces[1..] == rest;
      assert chunk == [OPEN_OBJECT] + chunk[1..];
      SpellsExactly(pieces, chunk);
    }
    if Balanced(chunk) {
      var pieces :| Spells(pieces, chunk);
      SpellsExactly(pieces, chunk);
      assert chunk[1..] == Spelled(pieces[1..]);
      FallingIsRead(chunk, 1, pieces[1..], 1);
    }
  }

  ghost predicate Separated(prefix: Bytes, data: Bytes, chunks: seq<Bytes>) {
    (forall i :: 0 <= i < |chunks| ==> Balanced(chunks[i])) && data == prefix + Joined(chunks) + CLOSING
  }

  /** The preflight reports n records exactly when the data is the prefix, n balanced chunks separated by
      commas and the closing, with n within the limit. */
  lemma PreflightExact(prefix: Bytes, data: Bytes, n: nat)
    ensures Preflight(prefix, data) == (n, Counted) <==>
            n <= MAX_RECORDS && exists chunks :: |chunks| == n && Separated(prefix, data, chunks)
  {
    hide Closed, Balanced, CountFrom;
    if Preflight(prefix, data) == (n, Counted) {
      assert data == prefix + data[|prefix|..];
      var chunks: seq<Bytes> := [];
      if data[|prefix|..] != CLOSING {
        chunks := CountedIsJoined(data, |prefix|, 0);
      }
      forall i | 0 <= i < |chunks|
        ensures Balanced(chunks[i])
      {
        ClosedExactlyWhenBalanced(chunks[i]);
      }
      assert |chunks| == n && Separated(prefix, data, chunks);
    }
    if n <= MAX_RECORDS && exists chunks :: |chunks| == n && Separated(prefix, data, chunks) {
      var chunks :| |chunks| == n && Separated(prefix, data, chunks);
      forall i | 0 <= i < |chunks|
        ensures Closed(chunks[i])
      {
        ClosedExactlyWhenBalanced(chunks[i]);
      }
      assert data == prefix + (Joined(chunks) + CLOSING);
      JoinedIsCounted(prefix, chunks);
    }
  }

  // ----- encoded segments

  lemma ObjectIsClosed(j: Json)
    requires j.Object? && WellFormed(j)
    ensures Closed(Render(j))
  {
    var text, inner := Render(j), RenderMembers(j.members);
    ScanMembers(1, j.members);
    var m := Mode(1, false, false);
    assert text[1..1 + |inner|] == inner;
    StaysOpen(text, 1, m, inner, m);
    assert Advance(OUTSIDE, text[0]) == m;
  }

  /** Reading a piece that leaves the record open only moves the scanner on. */
  lemma {:induction false} StaysOpen(data: Bytes, index: nat, m: Mode, piece: Bytes, m': Mode)
    requires index + |piece| <= |data| && data[index..index + |piece|] == piece
    requires m.depth >= 1 && Scan(m, piece) == Some(m')
    ensures RecordEnd(data, index, m) == RecordEnd(data, index + |piece|, m')
    decreases |piece|
  {
    if piece != [] {
      assert data[index] == data[index..index + |piece|][0] == piece[0];
      assert data[index + 1..index + |piece|] == data[index..index + |piece|][1..] == piece[1..];
      StaysOpen(data, index + 1, Advance(m, piece[0]), piece[1..], m');
    }
  }

  function RenderAll(records: seq<Json>): seq<Bytes> {
    seq(|records|, i requires 0 <= i < |records| => Render(records[i]))
  }

  /** On the text of any list of JSON objects the count is exact, whatever nesting, strings and escapes they
      hold; beyond the limit it stops one record late. */
  lemma RecordsAreCounted(prefix: Bytes, records: seq<Json>)
    requires forall i :: 0 <= i < |records| ==> records[i].Object? && WellFormed(records[i])
    ensures Preflight(prefix, prefix + (Joined(RenderAll(records)) + CLOSING)) ==
            Tally(0, |records|)
  {
    forall i | 0 <= i < |records|
      ensures Closed(RenderAll(records)[i])
    {
      ObjectIsClosed(records[i]);
    }
    JoinedIsCounted(prefix, RenderAll(records));
  }
}
