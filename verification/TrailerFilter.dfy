/** Removing credential names from trailer declarations, in place on the header's slice of values. */
module TrailerFilter {

  // ----- Names in a declaration

  /** textproto.TrimString trims these. */
  predicate Blank(c: char) {
    c == ' ' || c == '\t' || c == '\n' || c == '\r'
  }

  function TrimLeft(s: string): string {
    if s != [] && Blank(s[0]) then TrimLeft(s[1..]) else s
  }

  function TrimRight(s: string): string {
    if s != [] && Blank(s[|s| - 1]) then TrimRight(s[..|s| - 1]) else s
  }

  function Trim(s: string): string {
    TrimRight(TrimLeft(s))
  }

  predicate Trimmed(s: string) {
    s == [] || (!Blank(s[0]) && !Blank(s[|s| - 1]))
  }

  lemma {:induction false} TrimLeftStarts(s: string)
    ensures TrimLeft(s) == [] || !Blank(TrimLeft(s)[0])
    ensures forall c | c in TrimLeft(s) :: c in s
  {
    if s != [] && Blank(s[0]) { TrimLeftStarts(s[1..]); }
  }

  lemma {:induction false} TrimRightEnds(s: string)
    requires s == [] || !Blank(s[0])
    ensures Trimmed(TrimRight(s))
    ensures forall c | c in TrimRight(s) :: c in s
  {
    if s != [] && Blank(s[|s| - 1]) {
      TrimRightEnds(s[..|s| - 1]);
    }
  }

  lemma TrimIsTrimmed(s: string)
    ensures Trimmed(Trim(s)) && forall c | c in Trim(s) :: c in s
  {
    TrimLeftStarts(s);
    TrimRightEnds(TrimLeft(s));
  }

  /** strings.SplitSeq at commas. */
  function Split(value: string): (parts: seq<string>)
    ensures |parts| >= 1
  {
    if value == [] then [[]]
    else
      var parts, last := Split(value[..|value| - 1]), value[|value| - 1];
      if last == ',' then parts + [[]] else parts[|parts| - 1 := parts[|parts| - 1] + [last]]
  }

  function Names(parts: seq<string>): seq<string> {
    if parts == [] then [] else Names(parts[..|parts| - 1]) + [Trim(parts[|parts| - 1])]
  }

  /** The trimmed names of one declared value. */
  function NamesIn(value: string): seq<string> {
    Names(Split(value))
  }

  function Fold(c: char): char {
    if 'A' <= c <= 'Z' then c + ('a' - 'A') else c
  }

  /** Equal but for the case of ASCII letters. */
  predicate SameFold(a: string, b: string) {
    |a| == |b| && forall i :: 0 <= i < |a| ==> Fold(a[i]) == Fold(b[i])
  }

  predicate IsCredential(name: string) {
    SameFold(name, "Authorization") || SameFold(name, "Cookie")
  }

  predicate HasCredential(value: string) {
    exists i :: 0 <= i < |NamesIn(value)| && IsCredential(NamesIn(value)[i])
  }

  function SafeNames(names: seq<string>): seq<string> {
    if names == [] then []
    else SafeNames(names[..|names| - 1]) + if Dropped(names[|names| - 1]) then [] else [names[|names| - 1]]
  }

  predicate Dropped(name: string) {
    name == [] || IsCredential(name)
  }

  function Join(names: seq<string>): string {
    if names == [] then []
    else if |names| == 1 then names[0]
    else Join(names[..|names| - 1]) + [',', ' '] + names[|names| - 1]
  }

  /** What is left of a declared value. */
  function Cleaned(value: string): string {
    if HasCredential(value) then Join(SafeNames(NamesIn(value))) else value
  }

  // ----- Joining and splitting

  predicate Plain(name: string) {
    name != [] && Trimmed(name) && ',' !in name
  }

  lemma {:induction false} SplitAppends(a: string, t: string)
    requires ',' !in t
    ensures Split(a + [','] + t) == Split(a) + [t]
  {
    var all := a + [','] + t;
    if t == [] {
      assert all[..|all| - 1] == a;
    } else {
      assert all[..|all| - 1] == a + [','] + t[..|t| - 1];
      SplitAppends(a, t[..|t| - 1]);
      assert t[..|t| - 1] + [t[|t| - 1]] == t;
    }
  }

  lemma {:induction false} SplitPlain(t: string)
    requires ',' !in t
    ensures Split(t) == [t]
  {
    if t != [] {
      SplitPlain(t[..|t| - 1]);
      assert t[..|t| - 1] + [t[|t| - 1]] == t;
    }
  }

  lemma TrimKeeps(t: string)
    requires Trimmed(t)
    ensures Trim(t) == t && Trim([' '] + t) == t
  {
    assert ([' '] + t)[1..] == t;
  }

  lemma NamesOne(part: string)
    ensures Names([part]) == [Trim(part)]
  {
    assert [part][..0] == [];
  }

  lemma NamesMore(parts: seq<string>, part: string)
    ensures Names(parts + [part]) == Names(parts) + [Trim(part)]
  {
    assert (parts + [part])[..|parts|] == parts;
  }

  lemma JoinSpaced(front: string, last: string)
    ensures front + [',', ' '] + last == front + [','] + ([' '] + last)
  {
  }

  lemma PlainHasNoComma(last: string)
    requires Plain(last)
    ensures ',' !in last && ',' !in [' '] + last && Trimmed(last)
  {
  }

  /** The joined text of plain names declares just those names. */
  lemma {:induction false} JoinThenSplit(names: seq<string>)
    requires names != [] && forall i :: 0 <= i < |names| ==> Plain(names[i])
    ensures NamesIn(Join(names)) == names
  {
    hide Split, Trim, Names, Plain;
    var n := |names| - 1;
    var front, last := names[..n], names[n];
    PlainHasNoComma(last);
    TrimKeeps(last);
    assert names == front + [last];
    if n == 0 {
      SplitPlain(last);
      NamesOne(last);
    } else {
      JoinThenSplit(front);
      JoinSpaced(Join(front), last);
      SplitAppends(Join(front), [' '] + last);
      NamesMore(Split(Join(front)), [' '] + last);
    }
  }

  lemma {:induction false} NamesArePlain(parts: seq<string>)
    requires forall i :: 0 <= i < |parts| ==> ',' !in parts[i]
    ensures forall i :: 0 <= i < |Names(parts)| ==> Trimmed(Names(parts)[i]) && ',' !in Names(parts)[i]
  {
    if parts != [] {
      NamesArePlain(parts[..|parts| - 1]);
      TrimIsTrimmed(parts[|parts| - 1]);
    }
  }

  lemma {:induction false} SplitHasNoComma(value: string)
    ensures forall i :: 0 <= i < |Split(value)| ==> ',' !in Split(value)[i]
  {
    if value != [] { SplitHasNoComma(value[..|value| - 1]); }
  }

  lemma {:induction false} SafeNamesAreSafe(names: seq<string>)
    ensures forall i :: 0 <= i < |SafeNames(names)| ==> SafeNames(names)[i] in names && !Dropped(SafeNames(names)[i])
  {
    if names != [] { SafeNamesAreSafe(names[..|names| - 1]); }
  }

  lemma SafeNamesArePlain(value: string)
    ensures forall i :: 0 <= i < |SafeNames(NamesIn(value))| ==>
            Plain(SafeNames(NamesIn(value))[i]) && !IsCredential(SafeNames(NamesIn(value))[i])
  {
    hide IsCredential;
    SplitHasNoComma(value);
    NamesArePlain(Split(value));
    SafeNamesAreSafe(NamesIn(value));
  }

  /** A cleaned value declares the other names in their order, none of them a credential. */
  lemma CleanedNames(value: string)
    requires HasCredential(value)
    ensures var safe := SafeNames(NamesIn(value));
            if safe == [] then Cleaned(value) == [] else NamesIn(Cleaned(value)) == safe
    ensures !HasCredential(Cleaned(value))
  {
    hide IsCredential, Plain;
    var safe := SafeNames(NamesIn(value));
    SafeNamesArePlain(value);
    if safe == [] {
      EmptyIsSafe();
    } else {
      JoinThenSplit(safe);
    }
  }

  lemma EmptyIsSafe()
    ensures !HasCredential([])
  {
    assert Trim([]) == [];
    var parts: seq<string> := [[]];
    assert Split([]) == parts && parts[..0] == [];
    assert NamesIn([]) == parts;
  }

  // ----- The code

  /** asciiEqualFold. */
  method AsciiEqualFold(value: string, expected: string) returns (same: bool)
    ensures same <==> SameFold(value, expected)
  {
    if |value| != |expected| { return false; }
    for i := 0 to |value|
      invariant forall k :: 0 <= k < i ==> Fold(value[k]) == Fold(expected[k])
    {
      var left, right := value[i], expected[i];
      if 'A' <= left <= 'Z' { left := left + ('a' - 'A'); }
      if 'A' <= right <= 'Z' { right := right + ('a' - 'A'); }
      if left != right {
        assert Fold(value[i]) != Fold(expected[i]);
        return false;
      }
    }
    return true;
  }

  method IsCredentialTrailerName(name: string) returns (r: bool)
    ensures r <==> IsCredential(name)
  {
    r := AsciiEqualFold(name, "Authorization");
    if !r { r := AsciiEqualFold(name, "Cookie"); }
  }

  lemma {:induction false} NameAt(parts: seq<string>, i: nat)
    requires i < |parts|
    ensures |Names(parts)| == |parts| && Names(parts)[i] == Trim(parts[i])
  {
    if i < |parts| - 1 { NameAt(parts[..|parts| - 1], i); }
    NamesLength(parts);
  }

  lemma {:induction false} NamesLength(parts: seq<string>)
    ensures |Names(parts)| == |parts|
  {
    if parts != [] { NamesLength(parts[..|parts| - 1]); }
  }

  /** hasCredentialTrailerName. */
  method HasCredentialTrailerName(value: string) returns (r: bool)
    ensures r <==> HasCredential(value)
  {
    hide IsCredential;
    var parts := Split(value);
    NamesLength(parts);
    for i := 0 to |parts|
      invariant forall k :: 0 <= k < i ==> !IsCredential(NamesIn(value)[k])
    {
      NameAt(parts, i);
      var bad := IsCredentialTrailerName(Trim(parts[i]));
      if bad {
        assert IsCredential(NamesIn(value)[i]);
        return true;
      }
    }
    return false;
  }

  /** removeCredentialTrailerNames. */
  method RemoveCredentialTrailerNames(value: string) returns (safe: string, removed: bool)
    ensures removed <==> HasCredential(value)
    ensures safe == Cleaned(value)
  {
    hide IsCredential, HasCredential;
    removed := HasCredentialTrailerName(value);
    if !removed { return value, false; }
    var parts := Split(value);
    ghost var names := Names(parts);
    NamesLength(parts);
    safe := [];
    for i := 0 to |parts|
      invariant safe == Join(SafeNames(names[..i]))
    {
      NameAt(parts, i);
      SafeNamesMore(names, i);
      safe := AppendName(safe, Trim(parts[i]), SafeNames(names[..i]));
    }
    assert names[..|parts|] == names;
  }

  /** One turn of the loop: a separator goes before every name but the first. */
  method AppendName(text: string, name: string, ghost before: seq<string>) returns (safe: string)
    requires text == Join(before) && forall k :: 0 <= k < |before| ==> before[k] != []
    ensures safe == Join(if Dropped(name) then before else before + [name])
  {
    hide IsCredential;
    safe := text;
    var bad := IsCredentialTrailerName(name);
    if name == [] || bad { return text; }
    JoinIsEmpty(before);
    JoinMore(before, name);
    if |safe| > 0 { safe := safe + [',', ' ']; }
    safe := safe + name;
  }

  lemma SafeNamesMore(names: seq<string>, i: nat)
    requires i < |names|
    ensures var before := SafeNames(names[..i]);
            && SafeNames(names[..i + 1]) == (if Dropped(names[i]) then before else before + [names[i]])
            && forall k :: 0 <= k < |before| ==> before[k] != []
  {
    hide IsCredential;
    assert names[..i + 1][..i] == names[..i];
    SafeNamesAreSafe(names[..i]);
  }

  lemma JoinIsEmpty(names: seq<string>)
    requires forall k :: 0 <= k < |names| ==> names[k] != []
    ensures Join(names) == [] <==> names == []
  {
  }

  lemma JoinMore(names: seq<string>, name: string)
    ensures Join(names + [name]) == if names == [] then name else Join(names) + [',', ' '] + name
  {
    assert (names + [name])[..|names|] == names;
  }

  /** The values kept of a list: untouched ones, and what is left of the others unless that is nothing. */
  function Kept(values: seq<string>): (r: seq<string>)
    ensures |r| <= |values|
  {
    if values == [] then []
    else
      var value := values[|values| - 1];
      Kept(values[..|values| - 1]) + if !HasCredential(value) || Cleaned(value) != [] then [Cleaned(value)] else []
  }

  lemma KeptMore(values: seq<string>, i: nat)
    requires i < |values|
    ensures Kept(values[..i + 1]) ==
            if !HasCredential(values[i]) || Cleaned(values[i]) != [] then Kept(values[..i]) + [Cleaned(values[i])]
            else Kept(values[..i])
  {
    hide HasCredential, Cleaned;
    assert values[..i + 1][..i] == values[..i];
  }

  ghost predicate AnyCredential(values: seq<string>) {
    exists k :: 0 <= k < |values| && HasCredential(values[k])
  }

  lemma AnyMore(values: seq<string>, i: nat)
    requires i < |values|
    ensures AnyCredential(values[..i + 1]) <==> AnyCredential(values[..i]) || HasCredential(values[i])
  {
    hide HasCredential;
    if AnyCredential(values[..i]) {
      var k :| 0 <= k < i && HasCredential(values[..i][k]);
      assert HasCredential(values[..i + 1][k]);
    }
    if HasCredential(values[i]) { assert HasCredential(values[..i + 1][i]); }
  }

  /** One turn of the loop: the value read is cleared, and what is kept of it goes to the end of the kept ones. */
  method Place(values: array<string>, kept: nat, i: nat, safe: string, keep: bool) returns (next: nat)
    requires kept <= i < values.Length && forall k :: kept <= k < i ==> values[k] == []
    modifies values
    ensures next == if keep then kept + 1 else kept
    ensures values[..next] == old(values[..kept]) + if keep then [safe] else []
    ensures forall k :: next <= k <= i ==> values[k] == []
    ensures values[i + 1..] == old(values[i + 1..])
  {
    values[i] := [];
    next := kept;
    if keep {
      values[kept] := safe;
      next := kept + 1;
    }
  }

  /** The loop of removeCredentialTrailerDeclarations: the kept values move to the front of the same slice, over values
      already read, and the rest of the slice is cleared. */
  method FilterInPlace(values: array<string>) returns (kept: nat, removedAny: bool)
    modifies values
    ensures kept <= values.Length
    ensures values[..kept] == Kept(old(values[..]))
    ensures forall i :: kept <= i < values.Length ==> values[i] == []
    ensures removedAny <==> AnyCredential(old(values[..]))
  {
    ghost var was := values[..];
    assert Kept(was[..0]) == [] && !AnyCredential(was[..0]);
    hide HasCredential, Cleaned, Kept, AnyCredential;
    kept, removedAny := 0, false;
    for i := 0 to values.Length
      invariant kept <= i && values[..kept] == Kept(was[..i])
      invariant forall k :: kept <= k < i ==> values[k] == []
      invariant values[i..] == was[i..]
      invariant removedAny <==> AnyCredential(was[..i])
    {
      KeptMore(was, i);
      AnyMore(was, i);
      NextValue(values[i..], was, i);
      var safe, removed := RemoveCredentialTrailerNames(values[i]);
      removedAny := removedAny || removed;
      assert values[i + 1..] == values[i..][1..];
      kept := Place(values, kept, i, safe, !removed || safe != []);
    }
    assert was[..values.Length] == was;
  }

  lemma NextValue(rest: seq<string>, was: seq<string>, i: nat)
    requires i < |was| && rest == was[i..]
    ensures rest[0] == was[i] && rest[1..] == was[i + 1..]
  {
  }

  /** Nothing kept declares a credential. */
  lemma {:induction false} KeptAreSafe(values: seq<string>)
    ensures forall i :: 0 <= i < |Kept(values)| ==> !HasCredential(Kept(values)[i])
  {
    hide HasCredential, Cleaned;
    if values != [] {
      KeptAreSafe(values[..|values| - 1]);
      CleanedIsSafe(values[|values| - 1]);
    }
  }

  lemma CleanedIsSafe(value: string)
    ensures !HasCredential(Cleaned(value))
  {
    if HasCredential(value) { CleanedNames(value); }
  }

  /** A list without credentials is kept as it is, so filtering again changes nothing. */
  lemma {:induction false} SafeValuesAreKept(values: seq<string>)
    requires forall i :: 0 <= i < |values| ==> !HasCredential(values[i])
    ensures Kept(values) == values
  {
    hide HasCredential;
    if values != [] {
      SafeValuesAreKept(values[..|values| - 1]);
      assert values == values[..|values| - 1] + [values[|values| - 1]];
    }
  }

  lemma FilteringIsIdempotent(values: seq<string>)
    ensures Kept(Kept(values)) == Kept(values)
  {
    KeptAreSafe(values);
    SafeValuesAreKept(Kept(values));
  }

  function Upper(s: string): string {
    if s == [] then [] else [if 'a' <= s[0] <= 'z' then s[0] - ('a' - 'A') else s[0]] + Upper(s[1..])
  }

  lemma {:induction false} UpperAt(s: string, i: nat)
    requires i < |s|
    ensures |Upper(s)| == |s| && Upper(s)[i] == if 'a' <= s[i] <= 'z' then s[i] - ('a' - 'A') else s[i]
  {
    if |s| > 1 { UpperAt(s[1..], if i > 0 then i - 1 else 0); }
  }

  /** Two names are the same but for case exactly when they are the same in capitals. */
  lemma FoldIsCaseBlind(a: string, b: string)
    ensures SameFold(a, b) <==> Upper(a) == Upper(b)
  {
    if a != [] { UpperAt(a, 0); }
    if b != [] { UpperAt(b, 0); }
    if |a| == |b| {
      forall i | 0 <= i < |a|
        ensures Fold(a[i]) == Fold(b[i]) <==> Upper(a)[i] == Upper(b)[i]
        ensures |Upper(a)| == |a| == |Upper(b)|
      {
        UpperAt(a, i);
        UpperAt(b, i);
      }
    }
  }

  /** A credential name is one in any case. */
  lemma CredentialsInAnyCase(name: string)
    ensures IsCredential(name) <==> Upper(name) == Upper("Authorization") || Upper(name) == Upper("Cookie")
  {
    FoldIsCaseBlind(name, "Authorization");
    FoldIsCaseBlind(name, "Cookie");
  }
}
