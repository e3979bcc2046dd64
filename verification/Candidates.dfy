/** The one failure reported out of many: the least bounded path, then the least code. */
module Candidates {
  import opened Wrappers
  import opened Pointer

  datatype Candidate = Candidate(path: string, code: string)

  /** Lexicographic order of strings by scalar value, which is the byte order of their UTF-8. */
  predicate TextLess(a: string, b: string) {
    if b == [] then false
    else if a == [] then true
    else a[0] < b[0] || (a[0] == b[0] && TextLess(a[1..], b[1..]))
  }

  predicate Less(a: Candidate, b: Candidate) {
    TextLess(a.path, b.path) || (a.path == b.path && TextLess(a.code, b.code))
  }

  lemma {:induction false} TextLessTotal(a: string, b: string)
    ensures a == b || TextLess(a, b) || TextLess(b, a)
    ensures !(TextLess(a, b) && TextLess(b, a))
    ensures a == b ==> !TextLess(a, b)
  {
    if a != [] && b != [] {
      TextLessTotal(a[1..], b[1..]);
      if a[0] == b[0] && a[1..] == b[1..] {
        assert a == [a[0]] + a[1..] && b == [b[0]] + b[1..];
      }
    }
  }

  lemma {:induction false} TextLessTransitive(a: string, b: string, c: string)
    requires TextLess(a, b) && TextLess(b, c)
    ensures TextLess(a, c)
  {
    if a != [] && a[0] == b[0] && b[0] == c[0] {
      TextLessTransitive(a[1..], b[1..], c[1..]);
    }
  }

  lemma LessTotal(a: Candidate, b: Candidate)
    ensures a == b || Less(a, b) || Less(b, a)
    ensures !(Less(a, b) && Less(b, a))
  {
    TextLessTotal(a.path, b.path);
    TextLessTotal(a.code, b.code);
  }

  lemma LessTransitive(a: Candidate, b: Candidate, c: Candidate)
    requires Less(a, b) && Less(b, c)
    ensures Less(a, c)
  {
    if TextLess(a.path, b.path) && TextLess(b.path, c.path) {
      TextLessTransitive(a.path, b.path, c.path);
    } else if a.path == b.path && b.path == c.path {
      TextLessTransitive(a.code, b.code, c.code);
    }
  }

  predicate AtMost(a: Candidate, b: Candidate) {
    a == b || Less(a, b)
  }

  /** This is the least of the faults, or there is none. */
  ghost predicate IsLeast(least: Option<Candidate>, faults: set<Candidate>) {
    match least
    case None => faults == {}
    case Some(c) => c in faults && forall f | f in faults :: AtMost(c, f)
  }

  /** A set of faults has one least element, so what is reported does not depend on the order of collection. */
  lemma LeastIsUnique(a: Option<Candidate>, b: Option<Candidate>, faults: set<Candidate>)
    requires IsLeast(a, faults) && IsLeast(b, faults)
    ensures a == b
  {
    if a.Some? && b.Some? {
      LessTotal(a.value, b.value);
    }
  }

  function Fault(code: string, path: string): Candidate {
    Candidate(Bounded(path), code)
  }

  /** candidateSet: it keeps the least candidate only; the set of all of them is a ghost. */
  class CandidateSet {
    var minimum: Candidate
    var present: bool
    ghost var faults: set<Candidate>

    function Least(): Option<Candidate>
      reads this
    {
      if present then Some(minimum) else None
    }

    ghost predicate Valid()
      reads this
    {
      IsLeast(Least(), faults) && forall f | f in faults :: Bounded(f.path) == f.path
    }

    constructor ()
      ensures Valid() && faults == {}
    {
      minimum := Candidate([], []);
      present := false;
      faults := {};
    }

    constructor Copy(other: CandidateSet)
      requires other.Valid()
      ensures Valid() && faults == other.faults
    {
      minimum := other.minimum;
      present := other.present;
      faults := other.faults;
    }

    method Add(code: string, path: string)
      requires Valid()
      modifies this
      ensures Valid() && faults == old(faults) + {Fault(code, path)}
    {
      var bounded := BoundedPointer(path);
      var candidate := Candidate(bounded, code);
      var less := !present || TextLess(candidate.path, minimum.path)
                  || (candidate.path == minimum.path && TextLess(candidate.code, minimum.code));
      faults := faults + {candidate};
      if less {
        forall f | f in faults
          ensures AtMost(candidate, f)
        {
          if present && f != candidate && f != minimum { LessTransitive(candidate, minimum, f); }
        }
        minimum := candidate;
        present := true;
      } else {
        LessTotal(candidate, minimum);
      }
    }

    /** failure: the reported path is bounded once more, which changes nothing. */
    method Failure() returns (r: Option<Candidate>)
      requires Valid()
      ensures r == Least()
    {
      if !present { return None; }
      var path := BoundedPointer(minimum.path);
      return Some(Candidate(path, minimum.code));
    }
  }
}
