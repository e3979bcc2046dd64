/** The Read and Close monitor around a request body.

    Each critical section is one step. Waiting on the condition variable is explicit: a parked call cannot move until
    a broadcast wakes it, and then it tests its condition again. The wrapped body's calls take any time, and while one
    of them runs it may put a credential trailer on the request: a Read only if it will end the body,
    a Close at will. */
module TrailerGuard {

  /** The guarded fields, and whether a credential trailer is on the request. */
  datatype Guard = Guard(readers: nat, closing: bool, rejected: bool, tainted: bool)

  // ----- Critical sections

  /** scrubLocked. */
  function Scrub(g: Guard, rejected: bool): Guard {
    g.(rejected := g.rejected || rejected || g.tainted, tainted := false)
  }

  function StartRead(g: Guard): Guard {
    g.(readers := g.readers + 1)
  }

  function FinishRead(g: Guard, terminal: bool): Guard {
    if terminal then Scrub(g, false) else g
  }

  function FinishClose(g: Guard): Guard {
    Scrub(g, false).(closing := false)
  }

  /** credentialTrailerBody; a section reports whether the call has to wait. */
  class CredentialTrailerBody {
    var readers: nat
    var closing: bool
    var rejected: bool
    var tainted: bool

    function View(): Guard
      reads this
    {
      Guard(readers, closing, rejected, tainted)
    }

    constructor (initial: bool)
      ensures View() == Guard(0, false, initial, false)
    {
      readers, closing, rejected, tainted := 0, false, initial, false;
    }

    method ScrubLocked(reject: bool)
      modifies this
      ensures View() == Scrub(old(View()), reject)
    {
      var observed := tainted;
      tainted := false;
      rejected := rejected || reject || observed;
    }

    method ScrubSection(reject: bool) returns (r: bool)
      modifies this
      ensures View() == Scrub(old(View()), reject) && r == rejected
    {
      ScrubLocked(reject);
      r := rejected;
    }

    /** Up to the call of the wrapped Read. */
    method EnterRead() returns (waits: bool)
      modifies this
      ensures waits == old(closing)
      ensures View() == if waits then old(View()) else StartRead(old(View()))
    {
      if closing { return true; }
      readers := readers + 1;
      return false;
    }

    /** Once the wrapped Read has returned: the count goes down and everyone is woken. */
    method LeaveRead()
      requires readers > 0
      modifies this
      ensures View() == old(View()).(readers := old(readers) - 1)
    {
      readers := readers - 1;
    }

    method SettleRead(terminal: bool) returns (waits: bool)
      modifies this
      ensures waits == old(closing)
      ensures View() == if waits then old(View()) else FinishRead(old(View()), terminal)
    {
      if closing { return true; }
      if terminal { ScrubLocked(false); }
      return false;
    }

    /** Up to the call of the wrapped Close. */
    method EnterClose() returns (waits: bool)
      modifies this
      ensures waits == old(closing)
      ensures View() == if waits then old(View()) else old(View()).(closing := true)
    {
      if closing { return true; }
      closing := true;
      return false;
    }

    /** Once the wrapped Close has returned. */
    method LeaveClose() returns (waits: bool)
      modifies this
      ensures waits == (old(readers) > 0)
      ensures View() == if waits then old(View()) else FinishClose(old(View()))
    {
      if readers > 0 { return true; }
      ScrubLocked(false);
      closing := false;
      return false;
    }
  }

  // ----- Calls

  datatype Pc =
    | ReadStart
    | ReadParked
    | Reading(last: bool)       // in the wrapped Read; last once it has put a trailer on the request
    | ReadReturned(last: bool)
    | ReadSettle(last: bool)
    | SettleParked(last: bool)
    | CloseStart
    | CloseParked
    | Closing                   // in the wrapped Close
    | CloseDrain
    | DrainParked
    | Done

  /** Calls come in any number, the wrapped calls return when they like, and other code may scrub at any time. */
  datatype Event =
    | CallRead
    | CallClose
    | CallScrub(reject: bool)
    | Materialize(id: nat)
    | Return(id: nat, terminal: bool)
    | Section(id: nat)

  datatype System = System(guard: Guard, calls: seq<Pc>)

  function Init(rejected: bool): System {
    System(Guard(0, false, rejected, false), [])
  }

  /** sync.Cond.Broadcast. */
  function Wake(pc: Pc): Pc {
    match pc
    case ReadParked => ReadStart
    case SettleParked(last) => ReadSettle(last)
    case CloseParked => CloseStart
    case DrainParked => CloseDrain
    case _ => pc
  }

  function WakeAll(calls: seq<Pc>): (r: seq<Pc>)
    ensures |r| == |calls|
    ensures forall i :: 0 <= i < |calls| ==> r[i] == Wake(calls[i])
  {
    if calls == [] then [] else WakeAll(calls[..|calls| - 1]) + [Wake(calls[|calls| - 1])]
  }

  function Move(s: System, id: nat, guard: Guard, pc: Pc): System
    requires id < |s.calls|
  {
    System(guard, s.calls[id := pc])
  }

  /** The section a call runs next, if it is not parked, in the wrapped body, or done. */
  function RunSection(s: System, id: nat): System
    requires id < |s.calls|
  {
    var g := s.guard;
    match s.calls[id]
    case ReadStart => if g.closing then Move(s, id, g, ReadParked) else Move(s, id, StartRead(g), Reading(false))
    case ReadReturned(last) =>
      if g.readers == 0 then s
      else
        var left := System(g.(readers := g.readers - 1), WakeAll(s.calls));
        if g.closing then Move(left, id, left.guard, SettleParked(last))
        else Move(left, id, FinishRead(left.guard, last), Done)
    case ReadSettle(last) => if g.closing then Move(s, id, g, SettleParked(last))
                             else Move(s, id, FinishRead(g, last), Done)
    case CloseStart => if g.closing then Move(s, id, g, CloseParked) else Move(s, id, g.(closing := true), Closing)
    case CloseDrain =>
      if g.readers > 0 then Move(s, id, g, DrainParked)
      else System(FinishClose(g), WakeAll(s.calls)[id := Done])
    case _ => s
  }

  /** An event that does not apply changes nothing. */
  function Apply(s: System, e: Event): System {
    match e
    case CallRead => s.(calls := s.calls + [ReadStart])
    case CallClose => s.(calls := s.calls + [CloseStart])
    case CallScrub(reject) => s.(guard := Scrub(s.guard, reject))
    case Materialize(id) =>
      if id < |s.calls| && s.calls[id].Reading? then Move(s, id, s.guard.(tainted := true), Reading(true))
      else if id < |s.calls| && s.calls[id].Closing? then Move(s, id, s.guard.(tainted := true), Closing)
      else s
    case Return(id, terminal) =>
      if id < |s.calls| && s.calls[id].Reading? then Move(s, id, s.guard, ReadReturned(s.calls[id].last || terminal))
      else if id < |s.calls| && s.calls[id].Closing? then Move(s, id, s.guard, CloseDrain)
      else s
    case Section(id) => if id < |s.calls| then RunSection(s, id) else s
  }

  function Run(rejected: bool, events: seq<Event>): System {
    if events == [] then Init(rejected) else Apply(Run(rejected, events[..|events| - 1]), events[|events| - 1])
  }

  // ----- Counting calls

  function Total(calls: seq<Pc>, f: Pc -> nat): nat {
    if calls == [] then 0 else Total(calls[..|calls| - 1], f) + f(calls[|calls| - 1])
  }

  lemma {:induction false} TotalUpdate(calls: seq<Pc>, f: Pc -> nat, i: nat, pc: Pc)
    requires i < |calls|
    ensures Total(calls[i := pc], f) + f(calls[i]) == Total(calls, f) + f(pc)
  {
    var n := |calls| - 1;
    if i == n {
      assert calls[i := pc][..n] == calls[..n];
    } else {
      assert calls[i := pc][..n] == calls[..n][i := pc];
      TotalUpdate(calls[..n], f, i, pc);
    }
  }

  lemma TotalMore(calls: seq<Pc>, f: Pc -> nat, pc: Pc)
    ensures Total(calls + [pc], f) == Total(calls, f) + f(pc)
  {
    assert (calls + [pc])[..|calls|] == calls;
  }

  lemma {:induction false} TotalWoken(calls: seq<Pc>, f: Pc -> nat)
    requires forall i :: 0 <= i < |calls| ==> f(Wake(calls[i])) == f(calls[i])
    ensures Total(WakeAll(calls), f) == Total(calls, f)
  {
    if calls != [] {
      var n := |calls| - 1;
      TotalWoken(calls[..n], f);
      assert WakeAll(calls)[..n] == WakeAll(calls[..n]);
    }
  }

  lemma {:induction false} TotalAtLeast(calls: seq<Pc>, f: Pc -> nat, i: nat)
    requires i < |calls|
    ensures Total(calls, f) >= f(calls[i])
  {
    if i < |calls| - 1 { TotalAtLeast(calls[..|calls| - 1], f, i); }
  }

  lemma {:induction false} TotalZero(calls: seq<Pc>, f: Pc -> nat)
    requires Total(calls, f) > 0
    ensures exists i :: 0 <= i < |calls| && f(calls[i]) > 0
  {
    var n := |calls| - 1;
    if f(calls[n]) == 0 {
      TotalZero(calls[..n], f);
      var i :| 0 <= i < n && f(calls[..n][i]) > 0;
      assert f(calls[i]) > 0;
    }
  }

  /** Counted among the readers: between the increment and the decrement. */
  function InRead(pc: Pc): nat {
    if pc.Reading? || pc.ReadReturned? then 1 else 0
  }

  /** Holds closing: from setting it to clearing it. */
  function InClose(pc: Pc): nat {
    if pc.Closing? || pc.CloseDrain? || pc.DrainParked? then 1 else 0
  }

  /** Will scrub before it returns. */
  predicate WillScrub(pc: Pc) {
    match pc
    case Reading(last) => last
    case ReadReturned(last) => last
    case ReadSettle(last) => last
    case SettleParked(last) => last
    case Closing | CloseDrain | DrainParked => true
    case _ => false
  }

  // ----- What every run keeps

  predicate ParkedOk(g: Guard, pc: Pc) {
    && (pc.ReadParked? || pc.SettleParked? || pc.CloseParked? ==> g.closing)
    && (pc.DrainParked? ==> g.readers > 0)
  }

  ghost predicate Parked(s: System) {
    forall i :: 0 <= i < |s.calls| ==> ParkedOk(s.guard, s.calls[i])
  }

  ghost predicate Tainted(s: System) {
    s.guard.tainted ==> exists i :: 0 <= i < |s.calls| && WillScrub(s.calls[i])
  }

  ghost predicate Inv(s: System) {
    && s.guard.readers == Total(s.calls, InRead)
    && Total(s.calls, InClose) == (if s.guard.closing then 1 else 0)
    && Parked(s)
    && Tainted(s)
  }

  function Bit(b: bool): nat {
    if b then 1 else 0
  }

  /** One call moves and nobody is woken. */
  lemma MoveKeeps(s: System, id: nat, g: Guard, pc: Pc)
    requires Inv(s) && id < |s.calls|
    requires g.readers + InRead(s.calls[id]) == s.guard.readers + InRead(pc)
    requires Bit(g.closing) + InClose(s.calls[id]) == Bit(s.guard.closing) + InClose(pc)
    requires (s.guard.closing ==> g.closing) && (s.guard.readers > 0 ==> g.readers > 0) && ParkedOk(g, pc)
    requires g.tainted ==> WillScrub(pc) || (s.guard.tainted && !WillScrub(s.calls[id]))
    ensures Inv(Move(s, id, g, pc))
  {
    TotalUpdate(s.calls, InRead, id, pc);
    TotalUpdate(s.calls, InClose, id, pc);
    var next := Move(s, id, g, pc);
    if g.tainted {
      if WillScrub(pc) {
        assert WillScrub(next.calls[id]);
      } else {
        var i :| 0 <= i < |s.calls| && WillScrub(s.calls[i]);
        assert WillScrub(next.calls[i]);
      }
    }
  }

  /** Waking changes neither count. */
  lemma WakingCountsNothing(calls: seq<Pc>)
    ensures Total(WakeAll(calls), InRead) == Total(calls, InRead)
    ensures Total(WakeAll(calls), InClose) == Total(calls, InClose)
    ensures Total(WakeAll(calls), Broadcasts) == Total(calls, Broadcasts)
  {
    hide Total, WakeAll;
    TotalWoken(calls, InRead);
    TotalWoken(calls, InClose);
    TotalWoken(calls, Broadcasts);
  }

  /** One call moves after everyone has been woken. */
  lemma WakeKeeps(s: System, id: nat, g: Guard, pc: Pc)
    requires Inv(s) && id < |s.calls|
    requires g.readers + InRead(s.calls[id]) == s.guard.readers + InRead(pc)
    requires Bit(g.closing) + InClose(s.calls[id]) == Bit(s.guard.closing) + InClose(pc)
    requires ParkedOk(g, pc)
    requires g.tainted ==> WillScrub(pc) || (s.guard.tainted && !WillScrub(s.calls[id]))
    ensures Inv(System(g, WakeAll(s.calls)[id := pc]))
  {
    hide Total, WakeAll;
    var woken := WakeAll(s.calls);
    WakingCountsNothing(s.calls);
    TotalUpdate(woken, InRead, id, pc);
    TotalUpdate(woken, InClose, id, pc);
    var next := System(g, woken[id := pc]);
    if g.tainted {
      if WillScrub(pc) {
        assert WillScrub(next.calls[id]);
      } else {
        var i :| 0 <= i < |s.calls| && WillScrub(s.calls[i]);
        assert WillScrub(next.calls[i]);
      }
    }
  }

  lemma SectionKeeps(s: System, id: nat)
    requires Inv(s) && id < |s.calls|
    ensures Inv(RunSection(s, id))
  {
    hide Inv;
    var g := s.guard;
    TotalAtLeastOne(s, id);
    match s.calls[id]
    case ReadStart =>
      if g.closing { MoveKeeps(s, id, g, ReadParked); } else { MoveKeeps(s, id, StartRead(g), Reading(false)); }
    case ReadReturned(last) =>
      var left := g.(readers := g.readers - 1);
      if g.closing {
        WakeKeeps(s, id, left, SettleParked(last));
      } else {
        WakeKeeps(s, id, FinishRead(left, last), Done);
      }
    case ReadSettle(last) =>
      if g.closing { MoveKeeps(s, id, g, SettleParked(last)); } else { MoveKeeps(s, id, FinishRead(g, last), Done); }
    case CloseStart =>
      if g.closing { MoveKeeps(s, id, g, CloseParked); } else { MoveKeeps(s, id, g.(closing := true), Closing); }
    case CloseDrain =>
      if g.readers > 0 { MoveKeeps(s, id, g, DrainParked); } else { WakeKeeps(s, id, FinishClose(g), Done); }
    case _ =>
  }

  lemma TotalAtLeastOne(s: System, id: nat)
    requires Inv(s) && id < |s.calls|
    ensures InRead(s.calls[id]) <= s.guard.readers
    ensures InClose(s.calls[id]) <= Bit(s.guard.closing)
  {
    TotalAtLeast(s.calls, InRead, id);
    TotalAtLeast(s.calls, InClose, id);
  }

  lemma CallKeeps(s: System, pc: Pc)
    requires Inv(s) && (pc.ReadStart? || pc.CloseStart?)
    ensures Inv(s.(calls := s.calls + [pc]))
  {
    TotalMore(s.calls, InRead, pc);
    TotalMore(s.calls, InClose, pc);
    var next := s.(calls := s.calls + [pc]);
    if s.guard.tainted {
      var i :| 0 <= i < |s.calls| && WillScrub(s.calls[i]);
      assert WillScrub(next.calls[i]);
    }
  }

  lemma ApplyKeeps(s: System, e: Event)
    requires Inv(s)
    ensures Inv(Apply(s, e))
  {
    match e
    case CallRead => CallKeeps(s, ReadStart);
    case CallClose => CallKeeps(s, CloseStart);
    case CallScrub(_) =>
    case Materialize(id) =>
      if id < |s.calls| && s.calls[id].Reading? { MoveKeeps(s, id, s.guard.(tainted := true), Reading(true)); }
      else if id < |s.calls| && s.calls[id].Closing? { MoveKeeps(s, id, s.guard.(tainted := true), Closing); }
    case Return(id, terminal) =>
      if id < |s.calls| && s.calls[id].Reading? {
        MoveKeeps(s, id, s.guard, ReadReturned(s.calls[id].last || terminal));
      }
      else if id < |s.calls| && s.calls[id].Closing? { MoveKeeps(s, id, s.guard, CloseDrain); }
    case Section(id) => if id < |s.calls| { SectionKeeps(s, id); }
  }

  lemma {:induction false} RunKeeps(rejected: bool, events: seq<Event>)
    ensures Inv(Run(rejected, events))
  {
    if events != [] {
      RunKeeps(rejected, events[..|events| - 1]);
      ApplyKeeps(Run(rejected, events[..|events| - 1]), events[|events| - 1]);
    }
  }

  // ----- Theorems over every run

  /** When a Close scrubs, no other call is inside the wrapped body, neither in a Read nor in a Close. */
  lemma CloseScrubsAlone(rejected: bool, events: seq<Event>, id: nat)
    requires var s := Run(rejected, events);
             id < |s.calls| && s.calls[id].CloseDrain? && Apply(s, Section(id)).calls[id].Done?
    ensures var s := Run(rejected, events);
            forall i :: 0 <= i < |s.calls| && i != id ==> !s.calls[i].Reading? && !s.calls[i].Closing?
  {
    var s := Run(rejected, events);
    RunKeeps(rejected, events);
    forall i | 0 <= i < |s.calls| && i != id
      ensures !s.calls[i].Reading? && !s.calls[i].Closing?
    {
      TotalAtLeast(s.calls, InRead, i);
      OneCloser(s, id, i);
    }
  }

  /** Two calls never hold closing together. */
  lemma OneCloser(s: System, i: nat, j: nat)
    requires Inv(s) && i < |s.calls| && j < |s.calls| && i != j && InClose(s.calls[i]) == 1
    ensures InClose(s.calls[j]) == 0
  {
    TotalUpdate(s.calls, InClose, i, Done);
    TotalAtLeast(s.calls[i := Done], InClose, j);
  }

  /** A rejection is never taken back. */
  lemma {:induction false} RejectionIsFinal(rejected: bool, events: seq<Event>, n: nat)
    requires n <= |events| && Run(rejected, events[..n]).guard.rejected
    ensures Run(rejected, events).guard.rejected
  {
    hide Apply;
    if n < |events| {
      var m := |events| - 1;
      assert events[..m][..n] == events[..n];
      RejectionIsFinal(rejected, events[..m], n);
      RejectionStays(Run(rejected, events[..m]), events[m]);
    } else {
      assert events[..n] == events;
    }
  }

  lemma RejectionStays(s: System, e: Event)
    requires s.guard.rejected
    ensures Apply(s, e).guard.rejected
  {
  }

  /** Whenever no call is pending, no credential trailer is left on the request. */
  lemma QuietMeansClean(rejected: bool, events: seq<Event>)
    requires forall i :: 0 <= i < |Run(rejected, events).calls| ==> Run(rejected, events).calls[i].Done?
    ensures !Run(rejected, events).guard.tainted
  {
    RunKeeps(rejected, events);
  }

  /** A trailer that appeared was either reported as a rejection or is still there for a pending call to find. */
  lemma {:induction false} NoTrailerIsMissed(rejected: bool, events: seq<Event>, n: nat)
    requires n <= |events| && Run(rejected, events[..n]).guard.tainted
    ensures Run(rejected, events).guard.rejected || Run(rejected, events).guard.tainted
  {
    hide Apply;
    if n < |events| {
      var m := |events| - 1;
      assert events[..m][..n] == events[..n];
      NoTrailerIsMissed(rejected, events[..m], n);
      TrailerStays(Run(rejected, events[..m]), events[m]);
    } else {
      assert events[..n] == events;
    }
  }

  lemma TrailerStays(s: System, e: Event)
    requires s.guard.rejected || s.guard.tainted
    ensures Apply(s, e).guard.rejected || Apply(s, e).guard.tainted
  {
  }

  /** So once every call has returned, each trailer that ever appeared has led to a rejection and is gone. */
  lemma EveryTrailerIsRejected(rejected: bool, events: seq<Event>, n: nat)
    requires n <= |events| && Run(rejected, events[..n]).guard.tainted
    requires forall i :: 0 <= i < |Run(rejected, events).calls| ==> Run(rejected, events).calls[i].Done?
    ensures Run(rejected, events).guard.rejected && !Run(rejected, events).guard.tainted
  {
    NoTrailerIsMissed(rejected, events, n);
    QuietMeansClean(rejected, events);
  }

  // ----- Progress

  /** A call that can move: it has a section to run, or the wrapped body will return to it. */
  predicate Movable(pc: Pc) {
    !pc.ReadParked? && !pc.SettleParked? && !pc.CloseParked? && !pc.DrainParked? && !pc.Done?
  }

  /** While any call is pending some call can move, so the guard never deadlocks and no wake-up is lost. */
  lemma SomeCallCanMove(rejected: bool, events: seq<Event>, id: nat)
    requires id < |Run(rejected, events).calls| && !Run(rejected, events).calls[id].Done?
    ensures exists i :: 0 <= i < |Run(rejected, events).calls| && Movable(Run(rejected, events).calls[i])
  {
    var s := Run(rejected, events);
    RunKeeps(rejected, events);
    if !Movable(s.calls[id]) {
      if s.calls[id].DrainParked? {
        TotalZero(s.calls, InRead);
        var i :| 0 <= i < |s.calls| && InRead(s.calls[i]) > 0;
        assert Movable(s.calls[i]);
      } else {
        TotalZero(s.calls, InClose);
        var closer :| 0 <= closer < |s.calls| && InClose(s.calls[closer]) > 0;
        if s.calls[closer].DrainParked? {
          TotalZero(s.calls, InRead);
          var i :| 0 <= i < |s.calls| && InRead(s.calls[i]) > 0;
          assert Movable(s.calls[i]);
        } else {
          assert Movable(s.calls[closer]);
        }
      }
    }
  }

  /** Broadcasts a call still has to make. */
  function Broadcasts(pc: Pc): nat {
    match pc
    case ReadStart | ReadParked => 1
    case Reading(_) | ReadReturned(_) => 1
    case CloseStart | CloseParked | Closing | CloseDrain | DrainParked => 1
    case _ => 0
  }

  /** How far a call is from its next broadcast or its end; waking sets it back. */
  function Rank(pc: Pc): nat {
    match pc
    case ReadStart | CloseStart => 5
    case ReadParked | CloseParked => 4
    case Reading(_) | Closing => 3
    case ReadReturned(_) | ReadSettle(_) | CloseDrain => 2
    case SettleParked(_) | DrainParked => 1
    case Done => 0
  }

  /** Steps left at most, while no new call comes in. */
  function Work(s: System): nat {
    Total(s.calls, Broadcasts) * (5 * |s.calls| + 1) + Total(s.calls, Rank)
  }

  /** A step of a call, as opposed to a new call, a scrub from outside, or a trailer appearing. */
  predicate IsStep(s: System, e: Event) {
    match e
    case Return(id, _) => id < |s.calls| && (s.calls[id].Reading? || s.calls[id].Closing?)
    case Section(id) => id < |s.calls| && Movable(s.calls[id]) && !s.calls[id].Reading? && !s.calls[id].Closing?
    case _ => false
  }

  lemma {:induction false} RankIsBounded(calls: seq<Pc>)
    ensures Total(calls, Rank) <= 5 * |calls|
  {
    if calls != [] { RankIsBounded(calls[..|calls| - 1]); }
  }

  /** A move without a broadcast lowers the rank. */
  lemma MoveWorks(s: System, id: nat, g: Guard, pc: Pc)
    requires id < |s.calls| && Broadcasts(pc) == Broadcasts(s.calls[id]) && Rank(pc) < Rank(s.calls[id])
    ensures Work(Move(s, id, g, pc)) < Work(s)
  {
    TotalUpdate(s.calls, Broadcasts, id, pc);
    TotalUpdate(s.calls, Rank, id, pc);
  }

  /** A broadcast may set every other call back, but there is one broadcast less to come. */
  lemma WakeWorks(s: System, id: nat, g: Guard, pc: Pc)
    requires id < |s.calls| && Broadcasts(s.calls[id]) == 1 && Broadcasts(pc) == 0
    ensures Work(System(g, WakeAll(s.calls)[id := pc])) < Work(s)
  {
    hide Total, WakeAll;
    var woken := WakeAll(s.calls);
    var calls := woken[id := pc];
    WakingCountsNothing(s.calls);
    TotalUpdate(woken, Broadcasts, id, pc);
    RankIsBounded(calls);
    OneLess(Total(s.calls, Broadcasts), 5 * |s.calls| + 1);
  }

  lemma OneLess(b: int, n: int)
    ensures (b - 1) * n == b * n - n
  {
  }

  /** Every step of a call brings the end nearer, whoever takes it and in whatever order. */
  lemma StepsRunOut(s: System, e: Event)
    requires Inv(s) && IsStep(s, e)
    ensures Work(Apply(s, e)) < Work(s) && |Apply(s, e).calls| == |s.calls|
  {
    var g := s.guard;
    hide Work;
    match e
    case Return(id, terminal) =>
      if s.calls[id].Reading? {
        MoveWorks(s, id, g, ReadReturned(s.calls[id].last || terminal));
      } else {
        MoveWorks(s, id, g, CloseDrain);
      }
    case Section(id) =>
      TotalAtLeastOne(s, id);
      SectionWorks(s, id);
  }

  lemma SectionWorks(s: System, id: nat)
    requires id < |s.calls| && Movable(s.calls[id]) && !s.calls[id].Reading? && !s.calls[id].Closing?
    requires InRead(s.calls[id]) <= s.guard.readers
    ensures Work(RunSection(s, id)) < Work(s) && |RunSection(s, id).calls| == |s.calls|
  {
    hide Work;
    var g := s.guard;
    match s.calls[id]
    case ReadStart =>
      if g.closing { MoveWorks(s, id, g, ReadParked); } else { MoveWorks(s, id, StartRead(g), Reading(false)); }
    case ReadReturned(last) =>
      var left := g.(readers := g.readers - 1);
      if g.closing {
        WakeWorks(s, id, left, SettleParked(last));
      } else {
        WakeWorks(s, id, FinishRead(left, last), Done);
      }
    case ReadSettle(last) =>
      if g.closing { MoveWorks(s, id, g, SettleParked(last)); } else { MoveWorks(s, id, FinishRead(g, last), Done); }
    case CloseStart =>
      if g.closing { MoveWorks(s, id, g, CloseParked); } else { MoveWorks(s, id, g.(closing := true), Closing); }
    case CloseDrain =>
      if g.readers > 0 { MoveWorks(s, id, g, DrainParked); } else { WakeWorks(s, id, FinishClose(g), Done); }
  }

  /** A schedule in which every event is a step of some call. */
  ghost predicate Schedule(s: System, steps: seq<Event>)
    decreases |steps|
  {
    steps == [] || (IsStep(s, steps[0]) && Schedule(Apply(s, steps[0]), steps[1..]))
  }

  /** With no new calls, no schedule can go on for more steps than this, so with progress every call returns. */
  lemma {:induction false} SchedulesEnd(s: System, steps: seq<Event>)
    requires Inv(s) && Schedule(s, steps)
    ensures |steps| <= Work(s)
    decreases |steps|
  {
    if steps != [] {
      StepsRunOut(s, steps[0]);
      ApplyKeeps(s, steps[0]);
      SchedulesEnd(Apply(s, steps[0]), steps[1..]);
    }
  }

  /** Where no call can take a step, every call has returned. */
  lemma StuckMeansDone(rejected: bool, events: seq<Event>)
    requires forall e :: !IsStep(Run(rejected, events), e)
    ensures forall i :: 0 <= i < |Run(rejected, events).calls| ==> Run(rejected, events).calls[i].Done?
  {
    var s := Run(rejected, events);
    if i :| 0 <= i < |s.calls| && !s.calls[i].Done? {
      SomeCallCanMove(rejected, events, i);
      var k :| 0 <= k < |s.calls| && Movable(s.calls[k]);
      assert IsStep(s, Section(k)) || IsStep(s, Return(k, false));
    }
  }

  /** A rejection is never made up: the request was rejected from the start, someone asked for it, or a trailer was
      there. */
  lemma {:induction false} RejectionHasACause(rejected: bool, events: seq<Event>)
    requires Run(rejected, events).guard.rejected
    ensures || rejected || CallScrub(true) in events
            || exists n :: 0 <= n <= |events| && Run(rejected, events[..n]).guard.tainted
  {
    if events != [] {
      var m := |events| - 1;
      var s := Run(rejected, events[..m]);
      if s.guard.rejected {
        RejectionHasACause(rejected, events[..m]);
        if n :| 0 <= n <= m && Run(rejected, events[..m][..n]).guard.tainted {
          assert events[..m][..n] == events[..n];
        }
      } else if s.guard.tainted {
        assert 0 <= m <= |events| && Run(rejected, events[..m]).guard.tainted;
      } else {
        OnlyAskedFor(s, events[m]);
      }
    }
  }

  lemma OnlyAskedFor(s: System, e: Event)
    requires !s.guard.rejected && !s.guard.tainted && Apply(s, e).guard.rejected
    ensures e == CallScrub(true)
  {
  }

  /** Once every call has returned, the request is rejected exactly when there was a cause. */
  lemma RejectedExactly(rejected: bool, events: seq<Event>)
    requires forall i :: 0 <= i < |Run(rejected, events).calls| ==> Run(rejected, events).calls[i].Done?
    ensures Run(rejected, events).guard.rejected <==>
            || rejected || CallScrub(true) in events
            || exists n :: 0 <= n <= |events| && Run(rejected, events[..n]).guard.tainted
  {
    hide Apply;
    if Run(rejected, events).guard.rejected { RejectionHasACause(rejected, events); }
    if rejected {
      assert events[..0] == [];
      RejectionIsFinal(rejected, events, 0);
    }
    if CallScrub(true) in events {
      var i :| 0 <= i < |events| && events[i] == CallScrub(true);
      AskedForIsRejected(rejected, events, i);
    }
    if n :| 0 <= n <= |events| && Run(rejected, events[..n]).guard.tainted {
      EveryTrailerIsRejected(rejected, events, n);
    }
  }

  lemma AskedForIsRejected(rejected: bool, events: seq<Event>, i: nat)
    requires i < |events| && events[i] == CallScrub(true)
    ensures Run(rejected, events).guard.rejected
  {
    assert events[..i + 1][..i] == events[..i];
    RejectionIsFinal(rejected, events, i + 1);
  }
}
