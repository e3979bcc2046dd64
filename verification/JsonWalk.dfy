/** The iterative walk over the tokens of a document: depth and node ceilings, and duplicate member names.

    The walk is compared with the tree that the tokens spell. */
module JsonWalk {
  import opened Wrappers
  import opened Pointer
  import opened Candidates
  import Number

  const MAX_DEPTH := 64
  const MAX_NODES := 50_000
  const DUPLICATE_FIELD := "duplicate-field"

  datatype Code = InvalidJson | TooDeep | TooManyNodes

  // ----- Documents

  datatype Json =
    | Scalar
    | Text(text: string)
    | Array(items: seq<Json>)
    | Object(members: seq<Member>)

  datatype Member = Member(name: string, value: Json)

  /** What the decoder hands out; a text is a member name or a value by where it stands. */
  datatype Token = BeginObject | EndObject | BeginArray | EndArray | TextToken(text: string) | ScalarToken

  /** After its last token the decoder reports the end of the input or an error. */
  datatype Ending = Eof | Malformed

  function TokensOf(v: Json): seq<Token>
    decreases v, 1
  {
    match v
    case Scalar => [ScalarToken]
    case Text(text) => [TextToken(text)]
    case Array(items) => [BeginArray] + ItemTokens(v, 0) + [EndArray]
    case Object(members) => [BeginObject] + MemberTokens(v, 0) + [EndObject]
  }

  function ItemTokens(v: Json, k: nat): seq<Token>
    requires v.Array? && k <= |v.items|
    decreases v, 0, |v.items| - k
  {
    if k == |v.items| then [] else TokensOf(v.items[k]) + ItemTokens(v, k + 1)
  }

  function MemberTokens(v: Json, k: nat): seq<Token>
    requires v.Object? && k <= |v.members|
    decreases v, 0, |v.members| - k
  {
    if k == |v.members| then []
    else [TextToken(v.members[k].name)] + TokensOf(v.members[k].value) + MemberTokens(v, k + 1)
  }

  /** The depth of every value of the tree, in document order. */
  function Depths(v: Json, depth: nat): seq<nat>
    decreases v, 1
  {
    [depth] + match v
              case Array(items) => ItemDepths(v, depth + 1, 0)
              case Object(members) => MemberDepths(v, depth + 1, 0)
              case _ => []
  }

  function ItemDepths(v: Json, depth: nat, k: nat): seq<nat>
    requires v.Array? && k <= |v.items|
    decreases v, 0, |v.items| - k
  {
    if k == |v.items| then [] else Depths(v.items[k], depth) + ItemDepths(v, depth, k + 1)
  }

  function MemberDepths(v: Json, depth: nat, k: nat): seq<nat>
    requires v.Object? && k <= |v.members|
    decreases v, 0, |v.members| - k
  {
    if k == |v.members| then [] else Depths(v.members[k].value, depth) + MemberDepths(v, depth, k + 1)
  }

  /** The ceiling crossed first in document order, when n values came before; depth is looked at before the count. */
  function Crossed(depths: seq<nat>, n: nat): Option<Code> {
    if depths == [] then None
    else if depths[0] > MAX_DEPTH then Some(TooDeep)
    else if n + 1 > MAX_NODES then Some(TooManyNodes)
    else Crossed(depths[1..], n + 1)
  }

  function Names(v: Json, k: nat): set<string>
    requires v.Object? && k <= |v.members|
  {
    set i | 0 <= i < k :: v.members[i].name
  }

  function DuplicateAt(place: seq<string>): Candidate {
    Fault(DUPLICATE_FIELD, Built(place))
  }

  /** The duplicate members of the tree at a place, each by its own path. */
  function Duplicates(v: Json, place: seq<string>): set<Candidate>
    decreases v, 1
  {
    match v
    case Array(items) => ItemDuplicates(v, place, 0)
    case Object(members) => MemberDuplicates(v, place, 0)
    case _ => {}
  }

  function ItemDuplicates(v: Json, place: seq<string>, k: nat): set<Candidate>
    requires v.Array? && k <= |v.items|
    decreases v, 0, |v.items| - k
  {
    if k == |v.items| then {} else Duplicates(v.items[k], place + [Number.Decimal(k)]) + ItemDuplicates(v, place, k + 1)
  }

  function Repeated(v: Json, place: seq<string>, k: nat): set<Candidate>
    requires v.Object? && k < |v.members|
  {
    if v.members[k].name in Names(v, k) then {DuplicateAt(place + [v.members[k].name])} else {}
  }

  function MemberDuplicates(v: Json, place: seq<string>, k: nat): set<Candidate>
    requires v.Object? && k <= |v.members|
    decreases v, 0, |v.members| - k
  {
    if k == |v.members| then {}
    else Repeated(v, place, k) + Duplicates(v.members[k].value, place + [v.members[k].name])
         + MemberDuplicates(v, place, k + 1)
  }

  // ----- The walk

  datatype Frame =
    | ObjectFrame(path: string, seen: set<string>, pendingPath: string, expectingName: bool)
    | ArrayFrame(path: string, nextIndex: nat)

  datatype State = State(frames: seq<Frame>, nodes: nat, rootStarted: bool, faults: set<Candidate>)

  datatype Outcome = Going(state: State) | Stopped(code: Code)

  const START := State([], 0, false, {})

  function Pop(s: State): State
    requires s.frames != []
  {
    s.(frames := s.frames[..|s.frames| - 1])
  }

  function Top(s: State): Frame
    requires s.frames != []
  {
    s.frames[|s.frames| - 1]
  }

  function SetTop(s: State, frame: Frame): State
    requires s.frames != []
  {
    s.(frames := s.frames[|s.frames| - 1 := frame])
  }

  predicate ExpectsName(s: State) {
    s.frames != [] && Top(s).ObjectFrame? && Top(s).expectingName
  }

  /** A member name is read. */
  function TakeName(s: State, name: string): State
    requires ExpectsName(s)
  {
    var parent := Top(s);
    var path := Append(parent.path, name);
    var marked := SetTop(s, parent.(seen := parent.seen + {name}, pendingPath := path, expectingName := false));
    if name in parent.seen then marked.(faults := s.faults + {Fault(DUPLICATE_FIELD, path)}) else marked
  }

  /** The path of the next value. */
  function ValuePath(s: State): string {
    if s.frames == [] then []
    else match Top(s)
      case ObjectFrame(_, _, pendingPath, _) => pendingPath
      case ArrayFrame(path, nextIndex) => Append(path, Number.Decimal(nextIndex))
  }

  /** A value starts: its parent moves on and it is counted. */
  function Counted(s: State): State {
    var moved :=
      if s.frames == [] then s.(rootStarted := true)
      else match Top(s)
        case ObjectFrame(_, _, _, _) => SetTop(s, Top(s).(pendingPath := [], expectingName := true))
        case ArrayFrame(_, nextIndex) => SetTop(s, Top(s).(nextIndex := nextIndex + 1));
    moved.(nodes := s.nodes + 1)
  }

  function Push(s: State, frame: Frame): State {
    s.(frames := s.frames + [frame])
  }

  function Opened(s: State, token: Token, path: string): State {
    match token
    case BeginObject => Push(s, ObjectFrame(path, {}, [], true))
    case BeginArray => Push(s, ArrayFrame(path, 0))
    case _ => s
  }

  function TakeValue(s: State, token: Token): Outcome {
    if s.frames == [] && s.rootStarted then Stopped(InvalidJson)
    else if |s.frames| > MAX_DEPTH then Stopped(TooDeep)
    else if s.nodes + 1 > MAX_NODES then Stopped(TooManyNodes)
    else Going(Opened(Counted(s), token, ValuePath(s)))
  }

  function Step(s: State, token: Token): Outcome {
    if token.EndObject? || token.EndArray? then
      if s.frames == [] || (token.EndObject? && !Top(s).ObjectFrame?) || (token.EndArray? && !Top(s).ArrayFrame?) then
        Stopped(InvalidJson)
      else Going(Pop(s))
    else if ExpectsName(s) then
      if token.TextToken? then Going(TakeName(s, token.text)) else Stopped(InvalidJson)
    else TakeValue(s, token)
  }

  function Run(s: State, tokens: seq<Token>): Outcome
    decreases |tokens|
  {
    if tokens == [] then Going(s)
    else match Step(s, tokens[0])
      case Going(next) => Run(next, tokens[1..])
      case Stopped(code) => Stopped(code)
  }

  /** Going on with more tokens, unless the walk has stopped. */
  function Then(outcome: Outcome, tokens: seq<Token>): Outcome {
    if outcome.Going? then Run(outcome.state, tokens) else outcome
  }

  /** What is reported once the tokens run out. */
  function Finish(outcome: Outcome, ending: Ending): Outcome {
    match outcome
    case Stopped(_) => outcome
    case Going(s) => if ending.Eof? && s.rootStarted && s.frames == [] then outcome else Stopped(InvalidJson)
  }

  lemma {:induction false} RunSplits(s: State, a: seq<Token>, b: seq<Token>)
    ensures Run(s, a + b) == Then(Run(s, a), b)
    decreases |a|
  {
    if a == [] {
      assert a + b == b;
    } else {
      assert (a + b)[0] == a[0] && (a + b)[1..] == a[1..] + b;
      if Step(s, a[0]).Going? { RunSplits(Step(s, a[0]).state, a[1..], b); }
    }
  }

  lemma RunOne(s: State, token: Token)
    ensures Run(s, [token]) == Step(s, token)
  {
    if Step(s, token).Going? { assert Run(Step(s, token).state, [token][1..]) == Step(s, token); }
  }

  /** The stack of frames never grows beyond one more than the depth ceiling, whatever the tokens. */
  lemma {:induction false} FramesAreBounded(s: State, tokens: seq<Token>)
    requires |s.frames| <= MAX_DEPTH + 1
    ensures Run(s, tokens).Going? ==> |Run(s, tokens).state.frames| <= MAX_DEPTH + 1
    decreases |tokens|
  {
    if tokens != [] && Step(s, tokens[0]).Going? { FramesAreBounded(Step(s, tokens[0]).state, tokens[1..]); }
  }

  // ----- Agreement with the tree

  lemma {:induction false} CrossedSplits(a: seq<nat>, b: seq<nat>, n: nat)
    ensures Crossed(a + b, n) == if Crossed(a, n).Some? then Crossed(a, n) else Crossed(b, n + |a|)
  {
    if a == [] {
      assert a + b == b;
    } else {
      assert (a + b)[0] == a[0] && (a + b)[1..] == a[1..] + b;
      CrossedSplits(a[1..], b, n + 1);
    }
  }

  /** No ceiling is crossed exactly when every depth and the number of values are within the limits. */
  lemma {:induction false} CrossedExactly(depths: seq<nat>, n: nat)
    requires n <= MAX_NODES
    ensures Crossed(depths, n).None? <==>
            (forall i :: 0 <= i < |depths| ==> depths[i] <= MAX_DEPTH) && n + |depths| <= MAX_NODES
  {
    if depths != [] && n + 1 <= MAX_NODES {
      CrossedExactly(depths[1..], n + 1);
      assert (forall i :: 0 <= i < |depths| ==> depths[i] <= MAX_DEPTH)
        <==> depths[0] <= MAX_DEPTH && forall i :: 0 <= i < |depths[1..]| ==> depths[1..][i] <= MAX_DEPTH;
    }
  }

  /** The walk stands where the value at this place comes next. */
  ghost predicate ReadyAt(s: State, place: seq<string>) {
    if s.frames == [] then !s.rootStarted && place == []
    else match Top(s)
      case ObjectFrame(_, _, pendingPath, expectingName) => !expectingName && pendingPath == Built(place)
      case ArrayFrame(path, k) =>
        place != [] && path == Built(place[..|place| - 1]) && place[|place| - 1] == Number.Decimal(k)
  }

  /** A state, or the ceiling crossed on the way to it. */
  function Unless(crossed: Option<Code>, s: State): Outcome {
    if crossed.Some? then Stopped(crossed.value) else Going(s)
  }

  function Gain(s: State, values: nat, faults: set<Candidate>): State {
    s.(nodes := s.nodes + values, faults := s.faults + faults)
  }

  /** The state once the value at a place has been walked. */
  function After(s: State, v: Json, place: seq<string>): State {
    Gain(Counted(s), |Depths(v, |s.frames|)| - 1, Duplicates(v, place))
  }

  function AfterItems(s: State, v: Json, place: seq<string>, k: nat): State
    requires s.frames != [] && v.Array? && k <= |v.items|
  {
    Gain(SetTop(s, ArrayFrame(Built(place), |v.items|)), |ItemDepths(v, |s.frames|, k)|, ItemDuplicates(v, place, k))
  }

  function AfterMembers(s: State, v: Json, place: seq<string>, k: nat): State
    requires s.frames != [] && v.Object? && k <= |v.members|
  {
    Gain(SetTop(s, ObjectFrame(Built(place), Names(v, |v.members|), [], true)),
         |MemberDepths(v, |s.frames|, k)|, MemberDuplicates(v, place, k))
  }

  lemma ValuePathIsBuilt(s: State, place: seq<string>)
    requires ReadyAt(s, place)
    ensures ValuePath(s) == Built(place)
  {
  }

  lemma TakesFirst(s: State, place: seq<string>, token: Token, rest: seq<nat>)
    requires ReadyAt(s, place) && !token.EndObject? && !token.EndArray?
    ensures var crossed := Crossed([|s.frames|] + rest, s.nodes);
            if Step(s, token).Stopped? then crossed == Some(Step(s, token).code)
            else Step(s, token) == Going(Opened(Counted(s), token, Built(place)))
                 && crossed == Crossed(rest, s.nodes + 1)
  {
    ValuePathIsBuilt(s, place);
    assert ([|s.frames|] + rest)[1..] == rest;
  }

  /** What the walk over a value comes to, by the recursive definitions. */
  ghost predicate Walks(s: State, v: Json, place: seq<string>) {
    Run(s, TokensOf(v)) == Unless(Crossed(Depths(v, |s.frames|), s.nodes), After(s, v, place))
  }

  ghost predicate WalksItemsFrom(s: State, v: Json, place: seq<string>, k: nat)
    requires s.frames != [] && v.Array? && k <= |v.items|
  {
    Run(s, ItemTokens(v, k)) == Unless(Crossed(ItemDepths(v, |s.frames|, k), s.nodes), AfterItems(s, v, place, k))
  }

  ghost predicate WalksMembersFrom(s: State, v: Json, place: seq<string>, k: nat)
    requires s.frames != [] && v.Object? && k <= |v.members|
  {
    Run(s, MemberTokens(v, k)) == Unless(Crossed(MemberDepths(v, |s.frames|, k), s.nodes), AfterMembers(s, v, place, k))
  }

  lemma WalksLeaf(s: State, v: Json, place: seq<string>)
    requires ReadyAt(s, place) && !v.Array? && !v.Object?
    ensures Walks(s, v, place)
  {
    var token := TokensOf(v)[0];
    RunOne(s, token);
    TakesFirst(s, place, token, []);
    assert [|s.frames|] + [] == Depths(v, |s.frames|);
  }

  /** The walk over the tokens of any value computes what the recursive definitions of the tree say. */
  lemma {:induction false} WalksValue(s: State, v: Json, place: seq<string>)
    requires ReadyAt(s, place)
    ensures Walks(s, v, place)
    decreases v, 1
  {
    match v
    case Array(items) =>
      WalksItems(Push(Counted(s), ArrayFrame(Built(place), 0)), v, place, 0);
      WalksArray(s, v, place);
    case Object(members) =>
      WalksMembers(Push(Counted(s), ObjectFrame(Built(place), {}, [], true)), v, place, 0);
      WalksObject(s, v, place);
    case _ => WalksLeaf(s, v, place);
  }

  lemma ChainStops(s: State, a: seq<Token>, b: seq<Token>, da: seq<nat>, db: seq<nat>, code: Code)
    requires Run(s, a) == Stopped(code) && Crossed(da, s.nodes) == Some(code)
    ensures Run(s, a + b) == Stopped(code) && Crossed(da + db, s.nodes) == Some(code)
  {
    hide Run, Crossed, Step;
    RunSplits(s, a, b);
    CrossedSplits(da, db, s.nodes);
  }

  lemma ChainGoes(s: State, a: seq<Token>, b: seq<Token>, da: seq<nat>, db: seq<nat>, next: State)
    requires Run(s, a) == Going(next) && Crossed(da, s.nodes).None? && next.nodes == s.nodes + |da|
    ensures Run(s, a + b) == Run(next, b) && Crossed(da + db, s.nodes) == Crossed(db, next.nodes)
  {
    hide Run, Crossed, Step;
    RunSplits(s, a, b);
    CrossedSplits(da, db, s.nodes);
  }

  /** Two stretches of tokens in a row. */
  lemma Chain(s: State, a: seq<Token>, b: seq<Token>, da: seq<nat>, db: seq<nat>, next: State, last: State)
    requires Run(s, a) == Unless(Crossed(da, s.nodes), next) && next.nodes == s.nodes + |da|
    requires Run(next, b) == Unless(Crossed(db, next.nodes), last)
    ensures Run(s, a + b) == Unless(Crossed(da + db, s.nodes), last)
  {
    hide Run, Crossed, Step;
    if Crossed(da, s.nodes).Some? {
      ChainStops(s, a, b, da, db, Crossed(da, s.nodes).value);
    } else {
      ChainGoes(s, a, b, da, db, next);
    }
  }

  /** A stretch of tokens between an opening and a closing one. */
  lemma Enclose(s: State, open: Token, inner: seq<Token>, close: Token, rest: seq<nat>, inside: State, full: State,
                last: State)
    requires var crossed := Crossed([|s.frames|] + rest, s.nodes);
             if Step(s, open).Stopped? then crossed == Some(Step(s, open).code)
             else Step(s, open) == Going(inside) && crossed == Crossed(rest, inside.nodes)
    requires Run(inside, inner) == Unless(Crossed(rest, inside.nodes), full)
    requires Run(full, [close]) == Going(last)
    ensures Run(s, [open] + inner + [close]) == Unless(Crossed([|s.frames|] + rest, s.nodes), last)
  {
    Unfolds(s, open, inner, close);
  }

  lemma WalksArray(s: State, v: Json, place: seq<string>)
    requires ReadyAt(s, place) && v.Array?
    requires WalksItemsFrom(Push(Counted(s), ArrayFrame(Built(place), 0)), v, place, 0)
    ensures Walks(s, v, place)
  {
    hide Run, Crossed, Step, Built, Unless, After, AfterItems, ItemTokens, ItemDepths;
    var inside := Push(Counted(s), ArrayFrame(Built(place), 0));
    var rest := ItemDepths(v, |s.frames| + 1, 0);
    TakesFirst(s, place, BeginArray, rest);
    ArrayCloses(s, v, place);
    Enclose(s, BeginArray, ItemTokens(v, 0), EndArray, rest, inside, AfterItems(inside, v, place, 0),
            After(s, v, place));
  }

  lemma WalksObject(s: State, v: Json, place: seq<string>)
    requires ReadyAt(s, place) && v.Object?
    requires WalksMembersFrom(Push(Counted(s), ObjectFrame(Built(place), {}, [], true)), v, place, 0)
    ensures Walks(s, v, place)
  {
    hide Run, Crossed, Step, Built, Unless, After, AfterMembers, MemberTokens, MemberDepths;
    var inside := Push(Counted(s), ObjectFrame(Built(place), {}, [], true));
    var rest := MemberDepths(v, |s.frames| + 1, 0);
    TakesFirst(s, place, BeginObject, rest);
    ObjectCloses(s, v, place);
    Enclose(s, BeginObject, MemberTokens(v, 0), EndObject, rest, inside, AfterMembers(inside, v, place, 0),
            After(s, v, place));
  }

  lemma Unfolds(s: State, open: Token, inner: seq<Token>, close: Token)
    ensures Run(s, [open] + inner + [close]) == Then(Then(Step(s, open), inner), [close])
  {
    var all := [open] + inner + [close];
    assert all[1..] == inner + [close];
    if Step(s, open).Going? {
      RunSplits(Step(s, open).state, inner, [close]);
    }
  }

  lemma ArrayCloses(s: State, v: Json, place: seq<string>)
    requires v.Array?
    ensures var inside := Push(Counted(s), ArrayFrame(Built(place), 0));
            Run(AfterItems(inside, v, place, 0), [EndArray]) == Going(After(s, v, place))
  {
    hide Built, ItemDuplicates, ItemDepths;
    RunOne(AfterItems(Push(Counted(s), ArrayFrame(Built(place), 0)), v, place, 0), EndArray);
    var inside := Push(Counted(s), ArrayFrame(Built(place), 0));
    assert Pop(AfterItems(inside, v, place, 0)).frames == Counted(s).frames;
  }

  lemma ObjectCloses(s: State, v: Json, place: seq<string>)
    requires v.Object?
    ensures var inside := Push(Counted(s), ObjectFrame(Built(place), {}, [], true));
            Run(AfterMembers(inside, v, place, 0), [EndObject]) == Going(After(s, v, place))
  {
    hide Built, Names, MemberDuplicates, MemberDepths;
    RunOne(AfterMembers(Push(Counted(s), ObjectFrame(Built(place), {}, [], true)), v, place, 0), EndObject);
    var inside := Push(Counted(s), ObjectFrame(Built(place), {}, [], true));
    assert Pop(AfterMembers(inside, v, place, 0)).frames == Counted(s).frames;
  }

  lemma {:induction false} WalksItems(s: State, v: Json, place: seq<string>, k: nat)
    requires v.Array? && k <= |v.items| && s.frames != [] && Top(s) == ArrayFrame(Built(place), k)
    ensures WalksItemsFrom(s, v, place, k)
    decreases v, 0, |v.items| - k
  {
    if k < |v.items| {
      var here := place + [Number.Decimal(k)];
      WalksValue(s, v.items[k], here);
      ItemsChain(s, v, place, k);
      WalksItems(After(s, v.items[k], here), v, place, k + 1);
      WalksOneItem(s, v, place, k);
    } else {
      assert s == AfterItems(s, v, place, k);
    }
  }

  lemma WalksOneItem(s: State, v: Json, place: seq<string>, k: nat)
    requires v.Array? && k < |v.items| && s.frames != []
    requires var here := place + [Number.Decimal(k)];
             var next := After(s, v.items[k], here);
             && Walks(s, v.items[k], here) && |next.frames| == |s.frames| && WalksItemsFrom(next, v, place, k + 1)
             && next.nodes == s.nodes + |Depths(v.items[k], |s.frames|)|
             && AfterItems(next, v, place, k + 1) == AfterItems(s, v, place, k)
    ensures WalksItemsFrom(s, v, place, k)
  {
    var next := After(s, v.items[k], place + [Number.Decimal(k)]);
    Chain(s, TokensOf(v.items[k]), ItemTokens(v, k + 1), Depths(v.items[k], |s.frames|),
          ItemDepths(v, |s.frames|, k + 1),
          next, AfterItems(s, v, place, k));
  }

  lemma ItemsChain(s: State, v: Json, place: seq<string>, k: nat)
    requires v.Array? && k < |v.items| && s.frames != [] && Top(s) == ArrayFrame(Built(place), k)
    ensures var next := After(s, v.items[k], place + [Number.Decimal(k)]);
            && |next.frames| == |s.frames| && Top(next) == ArrayFrame(Built(place), k + 1)
            && next.nodes == s.nodes + |Depths(v.items[k], |s.frames|)|
            && AfterItems(next, v, place, k + 1) == AfterItems(s, v, place, k)
  {
    var next := After(s, v.items[k], place + [Number.Decimal(k)]);
    var full := ArrayFrame(Built(place), |v.items|);
    assert SetTop(next, full).frames == SetTop(s, full).frames;
  }

  lemma {:induction false} WalksMembers(s: State, v: Json, place: seq<string>, k: nat)
    requires v.Object? && k <= |v.members| && s.frames != []
             && Top(s) == ObjectFrame(Built(place), Names(v, k), [], true)
    ensures WalksMembersFrom(s, v, place, k)
    decreases v, 0, |v.members| - k
  {
    if k < |v.members| {
      var m := v.members[k];
      var here := place + [m.name];
      var named := TakeName(s, m.name);
      NameIsTaken(s, v, place, k);
      WalksValue(named, m.value, here);
      MembersChain(s, v, place, k);
      WalksMembers(After(named, m.value, here), v, place, k + 1);
      WalksOneMember(s, v, place, k);
    } else {
      assert s == AfterMembers(s, v, place, k);
    }
  }

  lemma WalksOneMember(s: State, v: Json, place: seq<string>, k: nat)
    requires v.Object? && k < |v.members| && ExpectsName(s)
    requires var m := v.members[k];
             var named := TakeName(s, m.name);
             var next := After(named, m.value, place + [m.name]);
             && named.nodes == s.nodes && |named.frames| == |s.frames| == |next.frames|
             && Walks(named, m.value, place + [m.name]) && WalksMembersFrom(next, v, place, k + 1)
             && next.nodes == s.nodes + |Depths(m.value, |s.frames|)|
             && AfterMembers(next, v, place, k + 1) == AfterMembers(s, v, place, k)
    ensures WalksMembersFrom(s, v, place, k)
  {
    var m := v.members[k];
    var named := TakeName(s, m.name);
    MemberTokensSplit(s, v, k);
    Chain(named, TokensOf(m.value), MemberTokens(v, k + 1), Depths(m.value, |s.frames|),
          MemberDepths(v, |s.frames|, k + 1),
          After(named, m.value, place + [m.name]), AfterMembers(s, v, place, k));
  }

  lemma NameIsTaken(s: State, v: Json, place: seq<string>, k: nat)
    requires v.Object? && k < |v.members| && s.frames != []
             && Top(s) == ObjectFrame(Built(place), Names(v, k), [], true)
    ensures var named := TakeName(s, v.members[k].name);
            && Top(named) == ObjectFrame(Built(place), Names(v, k + 1), Built(place + [v.members[k].name]), false)
            && |named.frames| == |s.frames| && named.nodes == s.nodes && named.rootStarted == s.rootStarted
            && named.frames[..|s.frames| - 1] == s.frames[..|s.frames| - 1]
            && named.faults == s.faults + Repeated(v, place, k)
  {
    var here := place + [v.members[k].name];
    assert here[..|here| - 1] == place;
    assert Names(v, k + 1) == Names(v, k) + {v.members[k].name};
  }

  lemma MemberTokensSplit(s: State, v: Json, k: nat)
    requires v.Object? && k < |v.members| && ExpectsName(s)
    ensures var named := TakeName(s, v.members[k].name);
            Run(s, MemberTokens(v, k)) == Run(named, TokensOf(v.members[k].value) + MemberTokens(v, k + 1))
  {
    var m := v.members[k];
    var rest := TokensOf(m.value) + MemberTokens(v, k + 1);
    assert MemberTokens(v, k) == [TextToken(m.name)] + rest;
    assert ([TextToken(m.name)] + rest)[1..] == rest;
  }

  lemma MembersChain(s: State, v: Json, place: seq<string>, k: nat)
    requires v.Object? && k < |v.members| && s.frames != []
             && Top(s) == ObjectFrame(Built(place), Names(v, k), [], true)
    ensures var m := v.members[k];
            var next := After(TakeName(s, m.name), m.value, place + [m.name]);
            && next.frames != [] && Top(next) == ObjectFrame(Built(place), Names(v, k + 1), [], true)
            && |next.frames| == |s.frames| && next.nodes == s.nodes + |Depths(m.value, |s.frames|)|
            && AfterMembers(next, v, place, k + 1) == AfterMembers(s, v, place, k)
  {
    hide Built, Depths, Duplicates;
    var m := v.members[k];
    NameIsTaken(s, v, place, k);
    var next := After(TakeName(s, m.name), m.value, place + [m.name]);
    var full := ObjectFrame(Built(place), Names(v, |v.members|), [], true);
    assert SetTop(next, full).frames == SetTop(s, full).frames;
  }

  // ----- Whole documents

  function TokensOfAll(values: seq<Json>): seq<Token> {
    if values == [] then [] else TokensOf(values[0]) + TokensOfAll(values[1..])
  }

  /** What a document of these values should come to: one value within both ceilings, with its duplicates. */
  function Verdict(values: seq<Json>, ending: Ending): Outcome {
    if values == [] then Stopped(InvalidJson)
    else
      var depths := Depths(values[0], 0);
      if Crossed(depths, 0).Some? then Stopped(Crossed(depths, 0).value)
      else if |values| == 1 && ending.Eof? then Going(State([], |depths|, true, Duplicates(values[0], [])))
      else Stopped(InvalidJson)
  }

  lemma SecondValueStops(s: State, v: Json, more: seq<Token>)
    requires s.frames == [] && s.rootStarted
    ensures Run(s, TokensOf(v) + more) == Stopped(InvalidJson)
  {
    var tokens := TokensOf(v) + more;
    assert tokens[0] == TokensOf(v)[0] && !tokens[0].EndObject? && !tokens[0].EndArray?;
  }

  /** For every list of values, and whether the input ends or breaks off after them, the iterative walk agrees
      with the recursive verdict. */
  lemma WalkAgrees(values: seq<Json>, ending: Ending)
    ensures Finish(Run(START, TokensOfAll(values)), ending) == Verdict(values, ending)
  {
    if values != [] {
      var v, rest := values[0], TokensOfAll(values[1..]);
      WalksValue(START, v, []);
      RunSplits(START, TokensOf(v), rest);
      if |values| > 1 {
        SecondValueStops(After(START, v, []), values[1], TokensOfAll(values[1..][1..]));
      } else {
        assert rest == [];
      }
    }
  }

  /** Success, exactly: one value, no value deeper than the ceiling, and no more values than allowed. */
  lemma AcceptsExactlyWithinCeilings(values: seq<Json>)
    ensures Finish(Run(START, TokensOfAll(values)), Eof).Going? <==>
            && |values| == 1
            && (forall i :: 0 <= i < |Depths(values[0], 0)| ==> Depths(values[0], 0)[i] <= MAX_DEPTH)
            && |Depths(values[0], 0)| <= MAX_NODES
  {
    WalkAgrees(values, Eof);
    if values != [] { CrossedExactly(Depths(values[0], 0), 0); }
  }

  // ----- scanJSONStructure

  lemma RunsOn(s: State, tokens: seq<Token>, i: nat)
    requires i < |tokens|
    ensures Run(s, tokens[i..]) == Then(Step(s, tokens[i]), tokens[i + 1..])
  {
    assert tokens[i..][1..] == tokens[i + 1..];
  }

  /** A value starts: its parent frame moves on, it is counted, and it may open a frame of its own. */
  method ScanValue(frames0: seq<Frame>, nodes0: nat, rootStarted0: bool, token: Token, ghost faults: set<Candidate>)
    returns (failure: Option<Code>, frames: seq<Frame>, nodes: nat, rootStarted: bool)
    ensures TakeValue(State(frames0, nodes0, rootStarted0, faults), token) ==
            if failure.Some? then Stopped(failure.value) else Going(State(frames, nodes, rootStarted, faults))
    ensures failure.None? ==> |frames| <= MAX_DEPTH + 1
  {
    hide Append;
    failure, frames, nodes, rootStarted := None, frames0, nodes0, rootStarted0;
    var path: string, depth := [], |frames|;
    if depth == 0 {
      if rootStarted { return Some(InvalidJson), frames, nodes, rootStarted; }
      rootStarted := true;
    } else {
      var parent := frames[depth - 1];
      if parent.ObjectFrame? {
        path := parent.pendingPath;
        frames := frames[depth - 1 := parent.(pendingPath := [], expectingName := true)];
      } else {
        path := AppendPointer(parent.path, Number.Decimal(parent.nextIndex));
        frames := frames[depth - 1 := parent.(nextIndex := parent.nextIndex + 1)];
      }
    }
    nodes := nodes + 1;
    if depth > MAX_DEPTH { return Some(TooDeep), frames, nodes, rootStarted; }
    if nodes > MAX_NODES { return Some(TooManyNodes), frames, nodes, rootStarted; }
    match token
    case BeginObject => frames := frames + [ObjectFrame(path, {}, [], true)];
    case BeginArray => frames := frames + [ArrayFrame(path, 0)];
    case _ =>
  }

  /** A member name is read, and reported when its object has it already. */
  method ScanName(frames0: seq<Frame>, name: string, found: CandidateSet, ghost s: State) returns (frames: seq<Frame>)
    requires s.frames == frames0 && ExpectsName(s) && found.Valid() && found.faults == s.faults
    modifies found
    ensures found.Valid() && |frames| == |frames0|
    ensures TakeName(s, name) == s.(frames := frames, faults := found.faults)
  {
    hide Append, Fault, CandidateSet.Valid;
    var parent := frames0[|frames0| - 1];
    var memberPath := AppendPointer(parent.path, name);
    if name in parent.seen {
      found.Add(DUPLICATE_FIELD, memberPath);
    }
    frames := frames0[|frames0| - 1 := parent.(seen := parent.seen + {name}, pendingPath := memberPath,
                                               expectingName := false)];
  }

  /** The loop over the tokens, with its stack of frames; the candidates end up as the duplicates of the document. */
  method ScanJsonStructure(tokens: seq<Token>, ending: Ending) returns (failure: Option<Code>, found: CandidateSet)
    ensures fresh(found) && found.Valid()
    ensures match Finish(Run(START, tokens), ending)
            case Going(s) => failure.None? && found.faults == s.faults
            case Stopped(code) => failure == Some(code) && found.faults == {}
  {
    found := new CandidateSet();
    var none := new CandidateSet();
    assert tokens[0..] == tokens;
    assert forall s :: Run(s, tokens[|tokens|..]) == Going(s);
    hide Run, TakeName, TakeValue;
    var frames: seq<Frame>, nodes, rootStarted := [], 0, false;
    for i := 0 to |tokens|
      invariant fresh(found) && fresh(none) && none != found && found.Valid() && none.Valid() && none.faults == {}
      invariant Run(START, tokens) == Run(State(frames, nodes, rootStarted, found.faults), tokens[i..])
      invariant |frames| <= MAX_DEPTH + 1
    {
      var token, depth := tokens[i], |frames|;
      RunsOn(State(frames, nodes, rootStarted, found.faults), tokens, i);
      if token.EndObject? || token.EndArray? {
        if depth == 0 || (token.EndObject? && !frames[depth - 1].ObjectFrame?)
           || (token.EndArray? && !frames[depth - 1].ArrayFrame?) {
          return Some(InvalidJson), none;
        }
        frames := frames[..depth - 1];
      } else if depth > 0 && frames[depth - 1].ObjectFrame? && frames[depth - 1].expectingName {
        if !token.TextToken? { return Some(InvalidJson), none; }
        frames := ScanName(frames, token.text, found, State(frames, nodes, rootStarted, found.faults));
      } else {
        failure, frames, nodes, rootStarted := ScanValue(frames, nodes, rootStarted, token, found.faults);
        if failure.Some? { return failure, none; }
      }
    }
    if ending.Malformed? || !rootStarted || |frames| != 0 { return Some(InvalidJson), none; }
    return None, found;
  }
}
