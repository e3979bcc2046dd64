/** JSON pointers of RFC 6901, built token by token under a rune bound and an encoded-byte bound.

    A string here is a sequence of Unicode scalar values, so it is always valid UTF-8. */
module Pointer {
  const MAX_RUNES := 96
  const MAX_ENCODED_BYTES := 98

  /** Stands for a pointer that does not fit; it is no pointer itself. */
  const UNREPRESENTABLE: string := ['\0']

  type Byte = b: int | 0 <= b < 256

  // ----- Encoded size

  /** The UTF-8 encoding of a scalar value, section 3 of RFC 3629. */
  function Utf8(c: char): seq<Byte> {
    var v := c as int;
    if v < 0x80 then [v]
    else if v < 0x800 then [0xc0 + v / 0x40, 0x80 + v % 0x40]
    else if v < 0x1_0000 then [0xe0 + v / 0x1000, 0x80 + v / 0x40 % 0x40, 0x80 + v % 0x40]
    else [0xf0 + v / 0x4_0000, 0x80 + v / 0x1000 % 0x40, 0x80 + v / 0x40 % 0x40, 0x80 + v % 0x40]
  }

  function Hex(d: nat): Byte
    requires d < 16
  {
    if d < 10 then '0' as int + d else 'a' as int + (d - 10)
  }

  /** A backslash, the letter u and four hexadecimal digits. */
  function UnicodeEscape(v: nat): seq<Byte>
    requires v < 0x1_0000
  {
    ['\\' as int, 'u' as int, Hex(v / 0x1000), Hex(v / 0x100 % 16), Hex(v / 0x10 % 16), Hex(v % 16)]
  }

  /** One character inside a JSON string as the API writes it: short escapes, HTML-safe escapes, or plain UTF-8. */
  function JsonCharacter(c: char): seq<Byte> {
    var v := c as int;
    var backslash: Byte := '\\' as int;
    if v == 8 then [backslash, 'b' as int]
    else if v == 9 then [backslash, 't' as int]
    else if v == 10 then [backslash, 'n' as int]
    else if v == 12 then [backslash, 'f' as int]
    else if v == 13 then [backslash, 'r' as int]
    else if v == '\"' as int || v == '\\' as int then [backslash, v]
    else if v < 0x20 || v == '<' as int || v == '>' as int || v == '&' as int || v == 0x2028 || v == 0x2029 then
      UnicodeEscape(v)
    else Utf8(c)
  }

  function JsonText(s: string): seq<Byte> {
    if s == [] then [] else JsonText(s[..|s| - 1]) + JsonCharacter(s[|s| - 1])
  }

  /** The whole JSON string, quotes included. */
  function JsonString(s: string): seq<Byte> {
    ['\"' as int] + JsonText(s) + ['\"' as int]
  }

  /** utf8.RuneLen. */
  function RuneLen(c: char): nat {
    if c as int < 0x80 then 1 else if c as int < 0x800 then 2 else if c as int < 0x1_0000 then 3 else 4
  }

  /** jsonEncodedRuneBytes. */
  function JsonEncodedRuneBytes(c: char): nat {
    var v := c as int;
    if v == 8 || v == 12 || v == 10 || v == 13 || v == 9 || v == '\"' as int || v == '\\' as int then 2
    else if c == '<' || c == '>' || c == '&' then 6
    else if v == 0x2028 || v == 0x2029 then 6
    else if v < 0x20 then 6
    else RuneLen(c)
  }

  lemma RuneBytesAreExact(c: char)
    ensures JsonEncodedRuneBytes(c) == |JsonCharacter(c)|
  {
  }

  /** The sum of the encoded sizes of the characters. */
  function Encoded(s: string): nat {
    if s == [] then 0 else Encoded(s[..|s| - 1]) + JsonEncodedRuneBytes(s[|s| - 1])
  }

  /** Both bounds of a field path. */
  predicate Fits(s: string) {
    |s| <= MAX_RUNES && Encoded(s) + 2 <= MAX_ENCODED_BYTES
  }

  lemma {:induction false} EncodedIsJsonSize(s: string)
    ensures Encoded(s) == |JsonText(s)|
  {
    if s != [] {
      EncodedIsJsonSize(s[..|s| - 1]);
      RuneBytesAreExact(s[|s| - 1]);
    }
  }

  /** The second bound is on the JSON string that carries the path, quotes included. */
  lemma FitsInJson(s: string)
    ensures Fits(s) <==> |s| <= MAX_RUNES && |JsonString(s)| <= MAX_ENCODED_BYTES
  {
    EncodedIsJsonSize(s);
  }

  lemma {:induction false} EncodedConcat(a: string, b: string)
    ensures Encoded(a + b) == Encoded(a) + Encoded(b)
  {
    if b == [] {
      assert a + b == a;
    } else {
      assert (a + b)[..|a + b| - 1] == a + b[..|b| - 1];
      EncodedConcat(a, b[..|b| - 1]);
    }
  }

  lemma EncodedOne(c: char)
    ensures Encoded([c]) == JsonEncodedRuneBytes(c)
  {
    assert [c][..0] == [];
  }

  /** Whatever fits, every part of it before some point fits too. */
  lemma PrefixFits(a: string, b: string)
    requires Fits(a + b)
    ensures Fits(a)
  {
    EncodedConcat(a, b);
  }

  // ----- Pointers

  function EscapeCharacter(c: char): string {
    if c == '~' then ['~', '0'] else if c == '/' then ['~', '1'] else [c]
  }

  /** Section 3 of RFC 6901. */
  function Escape(token: string): string {
    if token == [] then [] else Escape(token[..|token| - 1]) + EscapeCharacter(token[|token| - 1])
  }

  function Step(token: string): string {
    ['/'] + Escape(token)
  }

  /** The exact pointer of a list of tokens. */
  function PointerOf(tokens: seq<string>): string {
    if tokens == [] then [] else PointerOf(tokens[..|tokens| - 1]) + Step(tokens[|tokens| - 1])
  }

  /** jsontext.Pointer.IsValid on a string of scalar values. */
  predicate IsValid(path: string) {
    && (path != [] ==> path[0] == '/')
    && forall i :: 0 <= i < |path| && path[i] == '~' ==> i + 1 < |path| && (path[i + 1] == '0' || path[i + 1] == '1')
  }

  lemma {:induction false} EscapeIsSafe(token: string)
    ensures '/' !in Escape(token)
    ensures forall i :: 0 <= i < |Escape(token)| && Escape(token)[i] == '~'
                        ==> i + 1 < |Escape(token)| && (Escape(token)[i + 1] == '0' || Escape(token)[i + 1] == '1')
  {
    if token != [] { EscapeIsSafe(token[..|token| - 1]); }
  }

  lemma StepKeepsValid(path: string, token: string)
    requires IsValid(path)
    ensures IsValid(path + Step(token))
  {
    EscapeIsSafe(token);
    var all := path + Step(token);
    forall i | 0 <= i < |all| && all[i] == '~'
      ensures i + 1 < |all| && (all[i + 1] == '0' || all[i + 1] == '1')
    {
      if i > |path| {
        assert all[i] == Escape(token)[i - |path| - 1];
        assert all[i + 1] == Escape(token)[i - |path|];
      }
    }
  }

  lemma {:induction false} PointersAreValid(tokens: seq<string>)
    ensures IsValid(PointerOf(tokens))
    ensures PointerOf(tokens) != UNREPRESENTABLE
  {
    if tokens != [] {
      PointersAreValid(tokens[..|tokens| - 1]);
      StepKeepsValid(PointerOf(tokens[..|tokens| - 1]), tokens[|tokens| - 1]);
    }
  }

  // ----- Recovering the tokens, section 4 of RFC 6901

  /** Every tilde that stands before this digit, with the digit, becomes the character. */
  function Replace(s: string, digit: char, c: char): string {
    if s == [] then []
    else if |s| >= 2 && s[0] == '~' && s[1] == digit then [c] + Replace(s[2..], digit, c)
    else [s[0]] + Replace(s[1..], digit, c)
  }

  function Unescape(s: string): string {
    Replace(Replace(s, '1', '/'), '0', '~')
  }

  /** A token in which only the tildes are still escaped. */
  function HalfEscape(token: string): string {
    if token == [] then []
    else (if token[0] == '~' then ['~', '0'] else [token[0]]) + HalfEscape(token[1..])
  }

  lemma {:induction false} EscapeFront(token: string)
    requires token != []
    ensures Escape(token) == EscapeCharacter(token[0]) + Escape(token[1..])
  {
    if |token| > 1 {
      var front := token[..|token| - 1];
      EscapeFront(front);
      assert front[1..] == token[1..][..|token| - 2];
    } else {
      assert token[..0] == [] && token[1..] == [];
    }
  }

  lemma ReplaceKeeps(c: char, rest: string, digit: char, to: char)
    requires c != '~' || (rest != [] && rest[0] != digit)
    ensures Replace([c] + rest, digit, to) == [c] + Replace(rest, digit, to)
  {
    assert ([c] + rest)[1..] == rest;
  }

  lemma ReplaceTakes(rest: string, digit: char, to: char)
    ensures Replace(['~', digit] + rest, digit, to) == [to] + Replace(rest, digit, to)
  {
    assert (['~', digit] + rest)[2..] == rest;
  }

  lemma {:induction false} FirstPass(token: string)
    ensures Replace(Escape(token), '1', '/') == HalfEscape(token)
  {
    if token != [] {
      EscapeFront(token);
      FirstPass(token[1..]);
      var rest := Escape(token[1..]);
      if token[0] == '~' {
        ReplaceKeeps('~', ['0'] + rest, '1', '/');
        ReplaceKeeps('0', rest, '1', '/');
        assert Escape(token) == ['~'] + (['0'] + rest);
      } else if token[0] == '/' {
        ReplaceTakes(rest, '1', '/');
      } else {
        ReplaceKeeps(token[0], rest, '1', '/');
      }
    }
  }

  lemma {:induction false} SecondPass(token: string)
    ensures Replace(HalfEscape(token), '0', '~') == token
  {
    if token != [] {
      SecondPass(token[1..]);
      var rest := HalfEscape(token[1..]);
      if token[0] == '~' {
        ReplaceTakes(rest, '0', '~');
      } else {
        ReplaceKeeps(token[0], rest, '0', '~');
      }
    }
  }

  lemma UnescapeInvertsEscape(token: string)
    ensures Unescape(Escape(token)) == token
  {
    FirstPass(token);
    SecondPass(token);
  }

  /** The reference tokens of a pointer: what follows each slash, unescaped. */
  function Tokens(path: string): seq<string> {
    if path == [] then [] else
      var k := LastSlash(path);
      if k < 0 then [] else Tokens(path[..k]) + [Unescape(path[k + 1..])]
  }

  function LastSlash(path: string): (k: int)
    ensures -1 <= k < |path|
  {
    if path == [] then -1 else if path[|path| - 1] == '/' then |path| - 1 else LastSlash(path[..|path| - 1])
  }

  lemma {:induction false} LastSlashIsAt(path: string, k: nat)
    requires k < |path| && path[k] == '/' && forall i :: k < i < |path| ==> path[i] != '/'
    ensures LastSlash(path) == k
  {
    if k < |path| - 1 { LastSlashIsAt(path[..|path| - 1], k); }
  }

  lemma LastStep(before: string, last: string)
    ensures var whole := before + Step(last);
            LastSlash(whole) == |before| && whole[..|before|] == before && whole[|before| + 1..] == Escape(last)
  {
    var whole := before + Step(last);
    EscapeIsSafe(last);
    assert whole[|before| + 1..] == Escape(last);
    forall i | |before| < i < |whole|
      ensures whole[i] != '/'
    {
      assert whole[i] == whole[|before| + 1..][i - |before| - 1];
    }
    LastSlashIsAt(whole, |before|);
  }

  lemma TokensStep(before: string, last: string)
    ensures Tokens(before + Step(last)) == Tokens(before) + [last]
  {
    LastStep(before, last);
    UnescapeInvertsEscape(last);
    hide Step, Unescape, Escape, LastSlash;
  }

  /** Splitting and unescaping recovers the tokens, so no two token lists share a pointer. */
  lemma {:induction false} TokensAreRecovered(tokens: seq<string>)
    ensures Tokens(PointerOf(tokens)) == tokens
  {
    hide Step, Tokens;
    if tokens == [] {
      NoTokens();
    } else {
      var front, last := tokens[..|tokens| - 1], tokens[|tokens| - 1];
      TokensAreRecovered(front);
      TokensStep(PointerOf(front), last);
      assert tokens == front + [last];
    }
  }

  lemma NoTokens()
    ensures Tokens([]) == []
  {
  }

  // ----- The bounded builder

  /** boundedStringMetrics: both counts, or a refusal as soon as either passes its bound. */
  method BoundedStringMetrics(value: string) returns (runes: nat, encodedBytes: nat, valid: bool)
    ensures valid <==> Fits(value)
    ensures valid ==> runes == |value| && encodedBytes == Encoded(value)
  {
    runes, encodedBytes := 0, 0;
    for i := 0 to |value|
      invariant runes == i && encodedBytes == Encoded(value[..i])
      invariant Fits(value[..i])
    {
      runes := runes + 1;
      encodedBytes := encodedBytes + JsonEncodedRuneBytes(value[i]);
      assert value[..i + 1][..i] == value[..i];
      if runes > MAX_RUNES || encodedBytes + 2 > MAX_ENCODED_BYTES {
        assert value[..i + 1] + value[i + 1..] == value;
        if Fits(value) { PrefixFits(value[..i + 1], value[i + 1..]); }
        return 0, 0, false;
      }
    }
    assert value[..|value|] == value;
    valid := true;
  }

  /** The exact extension of a path, or the mark. */
  function Append(path: string, token: string): string {
    if path != UNREPRESENTABLE && IsValid(path) && Fits(path + Step(token)) then path + Step(token) else UNREPRESENTABLE
  }

  lemma {:induction false} EscapeConcat(a: string, b: string)
    ensures Escape(a + b) == Escape(a) + Escape(b)
  {
    if b == [] {
      assert a + b == a;
    } else {
      assert (a + b)[..|a + b| - 1] == a + b[..|b| - 1];
      EscapeConcat(a, b[..|b| - 1]);
    }
  }

  lemma EncodedEscape(c: char)
    ensures Encoded(EscapeCharacter(c)) == if c == '~' || c == '/' then 2 else JsonEncodedRuneBytes(c)
  {
    EncodedOne(c);
    EncodedConcat(['~'], ['0']);
    EncodedConcat(['~'], ['1']);
    EncodedOne('~');
    EncodedOne('0');
    EncodedOne('1');
    assert ['~'] + ['0'] == ['~', '0'] && ['~'] + ['1'] == ['~', '1'];
  }

  /** The size of a path and one more token. */
  function ExtendedRunes(path: string, token: string): nat {
    |path| + 1 + |Escape(token)|
  }

  function ExtendedBytes(path: string, token: string): nat {
    Encoded(path) + 1 + Encoded(Escape(token))
  }

  lemma ExtendedSize(path: string, token: string)
    ensures |path + Step(token)| == ExtendedRunes(path, token)
    ensures Encoded(path + Step(token)) == ExtendedBytes(path, token)
  {
    EncodedConcat(path, Step(token));
    EncodedConcat(['/'], Escape(token));
    EncodedOne('/');
  }

  /** A token cut short gives a path that fits whenever the whole one does. */
  lemma CutFits(path: string, token: string, i: nat)
    requires i <= |token| && Fits(path + Step(token))
    ensures Fits(path + Step(token[..i]))
  {
    var cut, rest := token[..i], token[i..];
    assert cut + rest == token;
    EscapeConcat(cut, rest);
    EncodedConcat(Escape(cut), Escape(rest));
    ExtendedSize(path, token);
    ExtendedSize(path, cut);
  }

  lemma ExtendedGrows(path: string, token: string, i: nat)
    requires i < |token|
    ensures var plain := token[i] != '~' && token[i] != '/';
            && ExtendedRunes(path, token[..i + 1]) == ExtendedRunes(path, token[..i]) + (if plain then 1 else 2)
            && ExtendedBytes(path, token[..i + 1]) == ExtendedBytes(path, token[..i])
               + (if plain then JsonEncodedRuneBytes(token[i]) else 2)
  {
    assert token[..i + 1][..i] == token[..i];
    EncodedConcat(Escape(token[..i]), EscapeCharacter(token[i]));
    EncodedEscape(token[i]);
  }

  /** The counting loop of appendPointer: the running counts are those of a fresh count of the extended path. */
  method CountExtended(path: string, token: string, pathRunes: nat, pathBytes: nat)
    returns (fits: bool, runes: nat, bytes: nat)
    requires pathRunes == |path| && pathBytes == Encoded(path)
    ensures fits <==> Fits(path + Step(token))
    ensures fits ==> runes == |path + Step(token)| && bytes == Encoded(path + Step(token))
  {
    runes, bytes := pathRunes + 1, pathBytes + 1;
    ExtendedSize(path, token[..0]);
    if runes > MAX_RUNES || bytes + 2 > MAX_ENCODED_BYTES {
      if Fits(path + Step(token)) { CutFits(path, token, 0); }
      return false, runes, bytes;
    }
    for i := 0 to |token|
      invariant runes == ExtendedRunes(path, token[..i]) && bytes == ExtendedBytes(path, token[..i])
      invariant runes <= MAX_RUNES && bytes + 2 <= MAX_ENCODED_BYTES
    {
      ExtendedGrows(path, token, i);
      if token[i] == '~' || token[i] == '/' {
        runes := runes + 2;
        bytes := bytes + 2;
      } else {
        runes := runes + 1;
        bytes := bytes + JsonEncodedRuneBytes(token[i]);
      }
      if runes > MAX_RUNES || bytes + 2 > MAX_ENCODED_BYTES {
        ExtendedSize(path, token[..i + 1]);
        if Fits(path + Step(token)) { CutFits(path, token, i + 1); }
        return false, runes, bytes;
      }
    }
    assert token[..|token|] == token;
    ExtendedSize(path, token);
    fits := true;
  }

  /** The writing loop of appendPointer. */
  method WriteExtended(path: string, token: string) returns (result: string)
    ensures result == path + Step(token)
  {
    var written: string := [];
    for i := 0 to |token|
      invariant written == Escape(token[..i])
    {
      assert token[..i + 1][..i] == token[..i];
      if token[i] == '~' {
        written := written + ['~', '0'];
      } else if token[i] == '/' {
        written := written + ['~', '1'];
      } else {
        written := written + [token[i]];
      }
    }
    assert token[..|token|] == token;
    result := path + (['/'] + written);
  }

  /** appendPointer. */
  method AppendPointer(path: string, token: string) returns (result: string)
    ensures result == Append(path, token)
  {
    if path == UNREPRESENTABLE { return UNREPRESENTABLE; }
    var pathRunes, pathBytes, valid := BoundedStringMetrics(path);
    if !valid || (path != [] && !IsValid(path)) {
      if Fits(path + Step(token)) { PrefixFits(path, Step(token)); }
      return UNREPRESENTABLE;
    }
    var fits, runes, bytes := CountExtended(path, token, pathRunes, pathBytes);
    if !fits { return UNREPRESENTABLE; }
    result := WriteExtended(path, token);
  }

  /** A path built token by token from the root. */
  function Built(tokens: seq<string>): string {
    if tokens == [] then [] else Append(Built(tokens[..|tokens| - 1]), tokens[|tokens| - 1])
  }

  /** The built path is the exact pointer when that fits both bounds, and otherwise the mark, never a cut pointer. */
  lemma {:induction false} BuiltIsExactOrMarked(tokens: seq<string>)
    ensures Built(tokens) == if Fits(PointerOf(tokens)) then PointerOf(tokens) else UNREPRESENTABLE
  {
    if tokens != [] {
      var front, last := tokens[..|tokens| - 1], tokens[|tokens| - 1];
      BuiltIsExactOrMarked(front);
      PointersAreValid(front);
      if Fits(PointerOf(tokens)) { PrefixFits(PointerOf(front), Step(last)); }
    }
  }

  /** Distinct places have distinct built paths, unless neither fits. */
  lemma BuiltIsInjective(a: seq<string>, b: seq<string>)
    requires Built(a) == Built(b) && Built(a) != UNREPRESENTABLE
    ensures a == b
  {
    BuiltIsExactOrMarked(a);
    BuiltIsExactOrMarked(b);
    TokensAreRecovered(a);
    TokensAreRecovered(b);
  }

  /** What is reported of a path: itself when it is a pointer that fits, and nothing otherwise. */
  function Bounded(path: string): string {
    if IsValid(path) && Fits(path) then path else []
  }

  /** boundedPointer. */
  method BoundedPointer(path: string) returns (r: string)
    ensures r == Bounded(path)
  {
    if path == [] { return []; }
    if path == UNREPRESENTABLE || !IsValid(path) { return []; }
    var _, encodedBytes, valid := BoundedStringMetrics(path);
    if !valid || encodedBytes + 2 > MAX_ENCODED_BYTES { return []; }
    return path;
  }

  /** The path reported for a place is its exact pointer when that fits, and empty otherwise. */
  lemma ReportedPath(tokens: seq<string>)
    ensures Bounded(Built(tokens)) == if Fits(PointerOf(tokens)) then PointerOf(tokens) else []
    ensures Fits(PointerOf(tokens)) ==> Tokens(Bounded(Built(tokens))) == tokens
  {
    BuiltIsExactOrMarked(tokens);
    PointersAreValid(tokens);
    TokensAreRecovered(tokens);
  }
}
