/** The order of the members of objects does not matter, at any depth: the walk accepts a document exactly when it
    accepts any reordering of it, and with the same duplicates. */
module JsonOrder {
  import opened Candidates
  import opened JsonWalk
  import Number

  /** A document with the order of its members forgotten, at every depth. */
  datatype Shape = Leaf(value: Json) | Items(items: seq<Shape>) | Members(members: multiset<(string, Shape)>)

  function ShapeOf(v: Json): Shape
    decreases v, 1
  {
    match v
    case Array(items) => Items(seq(|items|, i requires 0 <= i < |items| => ShapeOf(items[i])))
    case Object(members) => Members(multiset(Pairs(v)))
    case _ => Leaf(v)
  }

  /** The names of an object with the shapes of their values, in order. */
  function Pairs(v: Json): seq<(string, Shape)>
    requires v.Object?
    decreases v, 0
  {
    seq(|v.members|, i requires 0 <= i < |v.members| => (v.members[i].name, ShapeOf(v.members[i].value)))
  }

  // ----- depths

  function Total(bags: seq<multiset<nat>>): multiset<nat> {
    if bags == [] then multiset{} else bags[0] + Total(bags[1..])
  }

  lemma {:induction false} TotalWithout(bags: seq<multiset<nat>>, j: nat)
    requires j < |bags|
    ensures Total(bags) == Total(bags[..j] + bags[j + 1..]) + bags[j]
  {
    var rest := bags[..j] + bags[j + 1..];
    if j == 0 {
      assert rest == bags[1..];
    } else {
      TotalWithout(bags[1..], j - 1);
      assert rest[0] == bags[0];
      assert rest[1..] == bags[1..][..j - 1] + bags[1..][j..];
    }
  }

  lemma MultisetWithout(b: seq<(string, Shape)>, j: nat)
    requires j < |b|
    ensures multiset(b) == multiset(b[..j] + b[j + 1..]) + multiset{b[j]}
  {
    assert b == b[..j] + ([b[j]] + b[j + 1..]);
  }

  lemma Elsewhere(a: seq<(string, Shape)>, b: seq<(string, Shape)>) returns (j: nat)
    requires multiset(a) == multiset(b) && a != []
    ensures j < |b| && b[j] == a[0]
  {
    assert a[0] in multiset(b);
    j :| 0 <= j < |b| && b[j] == a[0];
  }

  /** The first element of one order, taken out of both. */
  lemma TakenOut(a: seq<(string, Shape)>, b: seq<(string, Shape)>, j: nat)
    requires multiset(a) == multiset(b) && a != [] && j < |b| && b[j] == a[0]
    ensures multiset(a[1..]) == multiset(b[..j] + b[j + 1..])
  {
    MultisetWithout(a, 0);
    assert a[..0] + a[1..] == a[1..];
    MultisetWithout(b, j);
    Cancels(multiset(a[1..]), multiset(b[..j] + b[j + 1..]), a[0]);
  }

  lemma Cancels(x: multiset<(string, Shape)>, y: multiset<(string, Shape)>, m: (string, Shape))
    requires x + multiset{m} == y + multiset{m}
    ensures x == y
  {
    assert x == x + multiset{m} - multiset{m} && y == y + multiset{m} - multiset{m};
  }

  /** Bags that belong to the elements of a sequence add up alike in any order of the elements. */
  lemma {:induction false} TotalMoves(a: seq<(string, Shape)>, b: seq<(string, Shape)>,
                                      x: seq<multiset<nat>>, y: seq<multiset<nat>>)
    requires multiset(a) == multiset(b) && |x| == |a| && |y| == |b|
    requires forall i, j :: 0 <= i < |a| && 0 <= j < |b| && a[i] == b[j] ==> x[i] == y[j]
    ensures Total(x) == Total(y)
  {
    if a == [] {
      assert |multiset(b)| == 0;
    } else {
      var j := Elsewhere(a, b);
      TakenOut(a, b, j);
      var b', y' := b[..j] + b[j + 1..], y[..j] + y[j + 1..];
      forall i, k | 0 <= i < |a[1..]| && 0 <= k < |b'| && a[1..][i] == b'[k]
        ensures x[1..][i] == y'[k]
      {
        var whole := if k < j then k else k + 1;
        assert b'[k] == b[whole] && y'[k] == y[whole] && a[i + 1] == b[whole];
      }
      TotalMoves(a[1..], b', x[1..], y');
      TotalWithout(y, j);
    }
  }

  function MemberBags(v: Json, depth: nat): seq<multiset<nat>>
    requires v.Object?
  {
    seq(|v.members|, i requires 0 <= i < |v.members| => multiset(Depths(v.members[i].value, depth)))
  }

  lemma {:induction false} MemberDepthsAddUp(v: Json, depth: nat, k: nat)
    requires v.Object? && k <= |v.members|
    ensures multiset(MemberDepths(v, depth, k)) == Total(MemberBags(v, depth)[k..])
    decreases |v.members| - k
  {
    if k < |v.members| {
      MemberDepthsAddUp(v, depth, k + 1);
      assert MemberBags(v, depth)[k..][1..] == MemberBags(v, depth)[k + 1..];
    }
  }

  function ItemBags(v: Json, depth: nat): seq<multiset<nat>>
    requires v.Array?
  {
    seq(|v.items|, i requires 0 <= i < |v.items| => multiset(Depths(v.items[i], depth)))
  }

  lemma {:induction false} ItemDepthsAddUp(v: Json, depth: nat, k: nat)
    requires v.Array? && k <= |v.items|
    ensures multiset(ItemDepths(v, depth, k)) == Total(ItemBags(v, depth)[k..])
    decreases |v.items| - k
  {
    if k < |v.items| {
      ItemDepthsAddUp(v, depth, k + 1);
      assert ItemBags(v, depth)[k..][1..] == ItemBags(v, depth)[k + 1..];
    }
  }

  lemma SameItems(v: Json, w: Json, i: nat)
    requires v.Array? && w.Array? && ShapeOf(v) == ShapeOf(w) && i < |v.items|
    ensures |v.items| == |w.items| && ShapeOf(v.items[i]) == ShapeOf(w.items[i])
  {
    assert ShapeOf(v).items[i] == ShapeOf(w).items[i];
  }

  lemma SameKind(v: Json, w: Json)
    requires ShapeOf(v) == ShapeOf(w)
    ensures v.Object? == w.Object? && v.Array? == w.Array? && (v.Array? ==> |v.items| == |w.items|)
    ensures v.Object? ==> multiset(Pairs(v)) == multiset(Pairs(w))
    ensures !v.Object? && !v.Array? ==> v == w
  {
    if v.Array? && w.Array? { assert |ShapeOf(v).items| == |ShapeOf(w).items|; }
  }

  lemma ItemDepthsMatch(v: Json, w: Json, depth: nat)
    requires v.Array? && w.Array? && ItemBags(v, depth) == ItemBags(w, depth)
    ensures multiset(ItemDepths(v, depth, 0)) == multiset(ItemDepths(w, depth, 0))
  {
    ItemDepthsAddUp(v, depth, 0);
    ItemDepthsAddUp(w, depth, 0);
    assert ItemBags(v, depth)[0..] == ItemBags(w, depth)[0..];
  }

  lemma MemberDepthsMatch(v: Json, w: Json, depth: nat)
    requires v.Object? && w.Object? && multiset(Pairs(v)) == multiset(Pairs(w))
    requires forall i, j :: 0 <= i < |v.members| && 0 <= j < |w.members| && Pairs(v)[i] == Pairs(w)[j] ==>
               MemberBags(v, depth)[i] == MemberBags(w, depth)[j]
    ensures multiset(MemberDepths(v, depth, 0)) == multiset(MemberDepths(w, depth, 0))
  {
    var x, y := MemberBags(v, depth), MemberBags(w, depth);
    TotalMoves(Pairs(v), Pairs(w), x, y);
    MemberDepthsAddUp(v, depth, 0);
    MemberDepthsAddUp(w, depth, 0);
    assert x[0..] == x && y[0..] == y;
  }

  lemma DepthsFromInner(v: Json, depth: nat)
    ensures var inner := if v.Array? then ItemDepths(v, depth + 1, 0)
                         else if v.Object? then MemberDepths(v, depth + 1, 0)
                         else [];
            multiset(Depths(v, depth)) == multiset{depth} + multiset(inner)
  {
  }

  /** Reordering keeps every depth, each as often. */
  lemma {:induction false} DepthsForgetOrder(v: Json, w: Json, depth: nat)
    requires ShapeOf(v) == ShapeOf(w)
    ensures multiset(Depths(v, depth)) == multiset(Depths(w, depth))
    decreases v
  {
    hide Depths, ItemDepths, MemberDepths;
    SameKind(v, w);
    DepthsFromInner(v, depth);
    DepthsFromInner(w, depth);
    if v.Array? {
      var x, y := ItemBags(v, depth + 1), ItemBags(w, depth + 1);
      forall i | 0 <= i < |v.items|
        ensures x[i] == y[i]
      {
        SameItems(v, w, i);
        DepthsForgetOrder(v.items[i], w.items[i], depth + 1);
      }
      assert x == y;
      ItemDepthsMatch(v, w, depth + 1);
    } else if v.Object? {
      forall i, j | 0 <= i < |v.members| && 0 <= j < |w.members| && Pairs(v)[i] == Pairs(w)[j]
        ensures MemberBags(v, depth + 1)[i] == MemberBags(w, depth + 1)[j]
      {
        DepthsForgetOrder(v.members[i].value, w.members[j].value, depth + 1);
      }
      hide Pairs, MemberBags;
      MemberDepthsMatch(v, w, depth + 1);
    }
  }

  // ----- duplicates

  /** Member i is a repetition reported as f, or its value holds f. */
  predicate Holds(v: Json, place: seq<string>, i: nat, f: Candidate)
    requires v.Object? && i < |v.members|
  {
    f in Repeated(v, place, i) || f in Duplicates(v.members[i].value, place + [v.members[i].name])
  }

  lemma {:induction false} MemberDuplicatesAre(v: Json, place: seq<string>, k: nat, f: Candidate)
    requires v.Object? && k <= |v.members|
    ensures f in MemberDuplicates(v, place, k) <==> exists i :: k <= i < |v.members| && Holds(v, place, i, f)
    decreases |v.members| - k
  {
    if k < |v.members| {
      MemberDuplicatesAre(v, place, k + 1, f);
      assert f in MemberDuplicates(v, place, k) <==> Holds(v, place, k, f) || f in MemberDuplicates(v, place, k + 1);
      hide MemberDuplicates, Holds;
    }
  }

  lemma {:induction false} ItemDuplicatesMatch(v: Json, w: Json, place: seq<string>, k: nat)
    requires v.Array? && w.Array? && k <= |v.items| == |w.items|
    requires forall i :: 0 <= i < |v.items| ==>
               Duplicates(v.items[i], place + [Number.Decimal(i)]) ==
                 Duplicates(w.items[i], place + [Number.Decimal(i)])
    ensures ItemDuplicates(v, place, k) == ItemDuplicates(w, place, k)
    decreases |v.items| - k
  {
    if k < |v.items| { ItemDuplicatesMatch(v, w, place, k + 1); }
  }

  lemma {:induction false} TwoPlaces(pairs: seq<(string, Shape)>, m: (string, Shape)) returns (i: nat, j: nat)
    requires multiset(pairs)[m] >= 2
    ensures i < j < |pairs| && pairs[i] == m && pairs[j] == m
  {
    var last := |pairs| - 1;
    assert pairs == pairs[..last] + [pairs[last]];
    if pairs[last] == m {
      assert m in multiset(pairs[..last]);
      i :| 0 <= i < last && pairs[i] == m;
      j := last;
    } else {
      i, j := TwoPlaces(pairs[..last], m);
    }
  }

  lemma CountsTwice(pairs: seq<(string, Shape)>, i: nat, j: nat)
    requires i < j < |pairs| && pairs[i] == pairs[j]
    ensures multiset(pairs)[pairs[i]] >= 2
  {
    assert pairs == pairs[..j] + ([pairs[j]] + pairs[j + 1..]);
    assert pairs[i] == pairs[..j][i] && pairs[i] in multiset(pairs[..j]);
  }

  /** Two places of one order can be found in the other. */
  lemma PairElsewhere(a: seq<(string, Shape)>, b: seq<(string, Shape)>, i: nat, j: nat) returns (p: nat, q: nat)
    requires multiset(a) == multiset(b) && i < j < |a|
    ensures p < |b| && q < |b| && p != q && b[p] == a[i] && b[q] == a[j]
  {
    if a[i] == a[j] {
      CountsTwice(a, i, j);
      p, q := TwoPlaces(b, a[i]);
    } else {
      assert a[i] in multiset(b) && a[j] in multiset(b);
      p :| 0 <= p < |b| && b[p] == a[i];
      q :| 0 <= q < |b| && b[q] == a[j];
    }
  }

  /** A name that stands twice in one order stands twice in the other. */
  lemma RepeatsElsewhere(v: Json, w: Json, place: seq<string>, i: nat) returns (k: nat)
    requires v.Object? && w.Object? && multiset(Pairs(v)) == multiset(Pairs(w))
    requires i < |v.members| && Repeated(v, place, i) != {}
    ensures k < |w.members| && Repeated(w, place, k) == Repeated(v, place, i)
  {
    var j :| 0 <= j < i && v.members[j].name == v.members[i].name;
    var p, q := PairElsewhere(Pairs(v), Pairs(w), j, i);
    assert Pairs(w)[p].0 == w.members[p].name && Pairs(w)[q].0 == w.members[q].name;
    k := if p < q then q else p;
    assert w.members[k].name in Names(w, k) by {
      assert w.members[if p < q then p else q].name == w.members[k].name;
    }
  }

  lemma {:induction false} DuplicatesMove(v: Json, w: Json, place: seq<string>, f: Candidate)
    requires v.Object? && w.Object? && multiset(Pairs(v)) == multiset(Pairs(w)) && f in Duplicates(v, place)
    requires forall i, j :: 0 <= i < |v.members| && 0 <= j < |w.members| && Pairs(v)[i] == Pairs(w)[j] ==>
               Duplicates(v.members[i].value, place + [v.members[i].name])
               == Duplicates(w.members[j].value, place + [w.members[j].name])
    ensures f in Duplicates(w, place)
  {
    MemberDuplicatesAre(v, place, 0, f);
    MemberDuplicatesAre(w, place, 0, f);
    var i :| 0 <= i < |v.members| && Holds(v, place, i, f);
    if f in Repeated(v, place, i) {
      var k := RepeatsElsewhere(v, w, place, i);
      assert Holds(w, place, k, f);
    } else {
      assert Pairs(v)[i] in multiset(Pairs(w));
      var k :| 0 <= k < |w.members| && Pairs(w)[k] == Pairs(v)[i];
      assert Holds(w, place, k, f);
    }
  }

  /** Documents that differ only in the order of members, at any depth, have the same duplicates. */
  lemma {:induction false} OrderDoesNotMatter(v: Json, w: Json, place: seq<string>)
    requires ShapeOf(v) == ShapeOf(w)
    ensures Duplicates(v, place) == Duplicates(w, place)
    decreases v
  {
    SameKind(v, w);
    match v
    case Array(items) =>
      forall i | 0 <= i < |items|
        ensures Duplicates(v.items[i], place + [Number.Decimal(i)]) ==
                Duplicates(w.items[i], place + [Number.Decimal(i)])
      {
        SameItems(v, w, i);
        OrderDoesNotMatter(v.items[i], w.items[i], place + [Number.Decimal(i)]);
      }
      ItemDuplicatesMatch(v, w, place, 0);
    case Object(members) =>
      forall i, j | 0 <= i < |members| && 0 <= j < |w.members| && Pairs(v)[i] == Pairs(w)[j]
        ensures Duplicates(v.members[i].value, place + [v.members[i].name])
                == Duplicates(w.members[j].value, place + [w.members[j].name])
      {
        OrderDoesNotMatter(v.members[i].value, w.members[j].value, place + [v.members[i].name]);
      }
      ObjectsMatch(v, w, place);
    case _ =>
  }

  lemma ObjectsMatch(v: Json, w: Json, place: seq<string>)
    requires v.Object? && w.Object? && multiset(Pairs(v)) == multiset(Pairs(w))
    requires forall i, j :: 0 <= i < |v.members| && 0 <= j < |w.members| && Pairs(v)[i] == Pairs(w)[j] ==>
               Duplicates(v.members[i].value, place + [v.members[i].name])
               == Duplicates(w.members[j].value, place + [w.members[j].name])
    ensures Duplicates(v, place) == Duplicates(w, place)
  {
    forall f
      ensures f in Duplicates(v, place) <==> f in Duplicates(w, place)
    {
      if f in Duplicates(v, place) { DuplicatesMove(v, w, place, f); }
      if f in Duplicates(w, place) { DuplicatesMove(w, v, place, f); }
    }
  }

  // ----- documents

  /** The walk accepts a document exactly when it accepts a reordering of it, and ends in the same state. */
  lemma ReorderedDocumentsAreAlike(v: Json, w: Json)
    requires ShapeOf(v) == ShapeOf(w)
    ensures var left, right := Finish(Run(START, TokensOf(v)), Eof), Finish(Run(START, TokensOf(w)), Eof);
            (left.Going? <==> right.Going?) && (left.Going? ==> left == right)
  {
    WalkAgrees([v], Eof);
    WalkAgrees([w], Eof);
    assert TokensOfAll([v]) == TokensOf(v) && TokensOfAll([w]) == TokensOf(w);
    AcceptsExactlyWithinCeilings([v]);
    AcceptsExactlyWithinCeilings([w]);
    DepthsForgetOrder(v, w, 0);
    OrderDoesNotMatter(v, w, []);
    SameBounds(Depths(v, 0), Depths(w, 0));
  }

  lemma SameBounds(a: seq<nat>, b: seq<nat>)
    requires multiset(a) == multiset(b)
    ensures |a| == |b|
    ensures (forall i :: 0 <= i < |a| ==> a[i] <= MAX_DEPTH) <==> (forall i :: 0 <= i < |b| ==> b[i] <= MAX_DEPTH)
  {
    assert |a| == |multiset(a)| && |b| == |multiset(b)|;
    assert forall i :: 0 <= i < |a| ==> a[i] in multiset(b);
    assert forall i :: 0 <= i < |b| ==> b[i] in multiset(a);
    assert forall x :: x in multiset(a) <==> x in a;
    assert forall x :: x in multiset(b) <==> x in b;
  }
}
