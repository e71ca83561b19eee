// Every push() on the ring buffer, from the call on: its line waits for a ticket, is on its
// way into the ring, is in the ring, has been delivered, or was overwritten unread.
module RingBufferCalls {
  import opened RingBuffer
  import opened RingBufferInvariant
  import opened Threads

  /** The lines of one producer's push() calls, read off the schedule; a call begins when its last one is over. */
  function Calls(size: nat, producers: nat, schedule: seq<Action>, p: nat): seq<Line>
    requires size > 0 && p < producers
    decreases |schedule|
  {
    if schedule == [] then []
    else
      var before, a := schedule[..|schedule| - 1], schedule[|schedule| - 1];
      var calls := Calls(size, producers, before, p);
      if a.Push? && a.producer == p && Exec(Init(size, producers), before).pcs[p] == Idle then calls + [a.line]
      else calls
  }

  /** The lines for which a producer has drawn a ticket, in that order. */
  function DrawnBy(drawn: seq<Line>, drawer: seq<nat>, p: nat): seq<Line>
    requires |drawn| == |drawer|
    decreases |drawn|
  {
    if drawn == [] then []
    else
      var n := |drawn| - 1;
      DrawnBy(drawn[..n], drawer[..n], p) + if drawer[n] == p then [drawn[n]] else []
  }

  /** The line of a call that has no ticket yet. */
  function Undrawn(pc: ProducerPc): seq<Line> {
    if pc.TakeTicket? then [pc.line] else []
  }

  /** The line a producer with a ticket has not stored yet. */
  function Carried(pc: ProducerPc): multiset<Line> {
    if pc.LockItem? || pc.StoreLine? then multiset{pc.line} else multiset{}
  }

  function InHand(pcs: seq<ProducerPc>): multiset<Line>
    decreases |pcs|
  {
    if pcs == [] then multiset{} else InHand(pcs[..|pcs| - 1]) + Carried(pcs[|pcs| - 1])
  }

  // ------------------------------------------------------------------- bookkeeping

  lemma {:induction false} InHandUpdate(pcs: seq<ProducerPc>, p: nat, pc: ProducerPc)
    requires p < |pcs|
    ensures InHand(pcs[p := pc]) + Carried(pcs[p]) == InHand(pcs) + Carried(pc)
    decreases |pcs|
  {
    hide Carried;
    var n := |pcs| - 1;
    var pcs' := pcs[p := pc];
    if p == n {
      assert pcs'[..n] == pcs[..n];
    } else {
      InHandUpdate(pcs[..n], p, pc);
      assert pcs'[..n] == pcs[..n][p := pc];
      SameSum(InHand(pcs'[..n]), InHand(pcs[..n]), Carried(pcs[p]), Carried(pc), Carried(pcs[n]));
    }
  }

  lemma {:induction false} InHandEmpty(pcs: seq<ProducerPc>)
    requires forall p :: 0 <= p < |pcs| ==> pcs[p] == Idle
    ensures InHand(pcs) == multiset{}
    decreases |pcs|
  {
    if pcs != [] {
      InHandEmpty(pcs[..|pcs| - 1]);
    }
  }

  lemma DrawnBySnoc(drawn: seq<Line>, drawer: seq<nat>, line: Line, q: nat, p: nat)
    requires |drawn| == |drawer|
    ensures DrawnBy(drawn + [line], drawer + [q], p) == DrawnBy(drawn, drawer, p) + if q == p then [line] else []
  {
    assert (drawn + [line])[..|drawn|] == drawn && (drawer + [q])[..|drawer|] == drawer;
  }

  // ------------------------------------------------------------------------- steps

  /** A ticket's line is stored or in the hands of a producer. */
  predicate TicketsInv(s: State) {
    |s.drawn| == |s.drawer| && multiset(s.drawn) == multiset(s.stored) + InHand(s.pcs)
  }

  /** The hands change with the one producer that moves. */
  lemma HandsMove(s: State, s': State, p: nat)
    requires p < |s.pcs| && |s'.pcs| == |s.pcs| && s'.pcs == s.pcs[p := s'.pcs[p]]
    ensures InHand(s'.pcs) + Carried(s.pcs[p]) == InHand(s.pcs) + Carried(s'.pcs[p])
    ensures Carried(s.pcs[p]) == Carried(s'.pcs[p]) ==> InHand(s'.pcs) == InHand(s.pcs)
  {
    hide InHand, Carried;
    InHandUpdate(s.pcs, p, s'.pcs[p]);
    if Carried(s.pcs[p]) == Carried(s'.pcs[p]) {
      Cancel(InHand(s'.pcs), InHand(s.pcs), Carried(s.pcs[p]));
    }
  }

  lemma StepKeepsTickets(s: State, p: nat)
    requires Sized(s) && TicketsInv(s) && p < |s.pcs|
    ensures TicketsInv(DoStep(s, p))
  {
    hide TicketsInv, DoTakeTicket, DoLockItem, DoStoreLine, DoSetWritten, DoUnlockItem;
    match s.pcs[p]
    case Idle =>
    case TakeTicket(line) => DrawKeepsTickets(s, p, line);
    case StoreLine(line, i) => StoreKeepsTickets(s, p, line, i);
    case LockItem(line, i) => QuietStep(s, DoStep(s, p), p) by { LockIsQuiet(s, p, line, i); }
    case SetWritten(i) => QuietStep(s, DoStep(s, p), p) by { EndIsQuiet(s, p, i); }
    case UnlockItem(i) => QuietStep(s, DoStep(s, p), p) by { EndIsQuiet(s, p, i); }
  }

  /** A step of p that neither draws nor stores. */
  predicate Quiet(s: State, s': State, p: nat) {
    && p < |s.pcs| && |s'.pcs| == |s.pcs| && s'.pcs == s.pcs[p := s'.pcs[p]]
    && Carried(s'.pcs[p]) == Carried(s.pcs[p])
    && s'.drawn == s.drawn && s'.drawer == s.drawer && s'.stored == s.stored
  }

  lemma QuietStep(s: State, s': State, p: nat)
    requires TicketsInv(s) && Quiet(s, s', p)
    ensures TicketsInv(s')
  {
    hide InHand, Carried;
    HandsMove(s, s', p);
  }

  lemma LockIsQuiet(s: State, p: nat, line: Line, i: nat)
    requires Sized(s) && p < |s.pcs| && s.pcs[p] == LockItem(line, i)
    ensures Quiet(s, DoLockItem(s, p, line, i), p)
  {
  }

  lemma EndIsQuiet(s: State, p: nat, i: nat)
    requires Sized(s) && p < |s.pcs| && (s.pcs[p] == SetWritten(i) || s.pcs[p] == UnlockItem(i))
    ensures Quiet(s, DoSetWritten(s, p, i), p) && Quiet(s, DoUnlockItem(s, p, i), p)
  {
  }

  lemma DrawKeepsTickets(s: State, p: nat, line: Line)
    requires Sized(s) && TicketsInv(s) && p < |s.pcs| && s.pcs[p] == TakeTicket(line)
    ensures TicketsInv(DoTakeTicket(s, p, line))
  {
    hide InHand;
    var s' := DoTakeTicket(s, p, line);
    HandsMove(s, s', p);
    assert InHand(s'.pcs) == InHand(s.pcs) + multiset{line};
    assert multiset(s'.drawn) == multiset(s.drawn) + multiset{line};
  }

  lemma StoreKeepsTickets(s: State, p: nat, line: Line, i: nat)
    requires Sized(s) && TicketsInv(s) && p < |s.pcs| && s.pcs[p] == StoreLine(line, i)
    ensures TicketsInv(DoStoreLine(s, p, line, i))
  {
    hide InHand;
    if Owns(s, i, Producer(p)) {
      var s' := DoStoreLine(s, p, line, i);
      HandsMove(s, s', p);
      assert InHand(s'.pcs) + multiset{line} == InHand(s.pcs);
      assert multiset(s'.stored) == multiset(s.stored) + multiset{line};
    }
  }

  /** Only drawing a ticket takes a line out of the calls without a ticket. */
  lemma StepDraws(s: State, p: nat, q: nat)
    requires Sized(s) && |s.drawn| == |s.drawer| && p < |s.pcs| && q < |s.pcs|
    ensures var s' := DoStep(s, q);
            && |s'.drawn| == |s'.drawer|
            && DrawnBy(s'.drawn, s'.drawer, p) + Undrawn(s'.pcs[p]) == DrawnBy(s.drawn, s.drawer, p) + Undrawn(s.pcs[p])
  {
    hide DrawnBy;
    if s.pcs[q].TakeTicket? {
      DrawnBySnoc(s.drawn, s.drawer, s.pcs[q].line, q, p);
    }
  }

  lemma ReadKeepsTickets(s: State)
    requires Sized(s)
    ensures var s' := DoRead(s);
            s'.drawn == s.drawn && s'.drawer == s.drawer && s'.stored == s.stored && s'.pcs == s.pcs
  {
  }

  lemma PushKeepsTickets(s: State, p: nat, line: Line)
    requires Sized(s) && TicketsInv(s) && p < |s.pcs|
    ensures TicketsInv(DoPush(s, p, line))
  {
    hide InHand;
    QuietStep(s, DoPush(s, p, line), p);
  }

  // --------------------------------------------------------------------- every run

  lemma {:induction false} TicketsAccounted(size: nat, producers: nat, schedule: seq<Action>)
    requires size > 0
    ensures TicketsInv(Exec(Init(size, producers), schedule))
    decreases |schedule|
  {
    hide DoStep, DoRead, DoPush, TicketsInv;
    if schedule == [] {
      InitTickets(size, producers);
    } else {
      var before, a := schedule[..|schedule| - 1], schedule[|schedule| - 1];
      var s := Exec(Init(size, producers), before);
      TicketsAccounted(size, producers, before);
      match a
      case Push(q, line) => if q < |s.pcs| { PushKeepsTickets(s, q, line); }
      case Step(q) => if q < |s.pcs| { StepKeepsTickets(s, q); }
      case Read => ReadTickets(s);
    }
  }

  lemma ReadTickets(s: State)
    requires Sized(s) && TicketsInv(s)
    ensures TicketsInv(DoRead(s))
  {
    hide DoRead;
    ReadKeepsTickets(s);
  }

  lemma InitTickets(size: nat, producers: nat)
    requires size > 0
    ensures TicketsInv(Init(size, producers))
  {
    InHandEmpty(Init(size, producers).pcs);
  }

  /** A producer's calls are its tickets, in program order, and the line still without one. */
  lemma {:induction false} TicketsFollowCalls(size: nat, producers: nat, schedule: seq<Action>, p: nat)
    requires size > 0 && p < producers
    ensures var s := Exec(Init(size, producers), schedule);
            && |s.drawn| == |s.drawer|
            && Calls(size, producers, schedule, p) == DrawnBy(s.drawn, s.drawer, p) + Undrawn(s.pcs[p])
    decreases |schedule|
  {
    hide DoStep, DoRead, DrawnBy;
    if schedule == [] {
      NoneDrawn(p);
    } else {
      var before, a := schedule[..|schedule| - 1], schedule[|schedule| - 1];
      var s := Exec(Init(size, producers), before);
      TicketsFollowCalls(size, producers, before, p);
      match a
      case Push(q, line) =>
      case Step(q) => if q < |s.pcs| { StepDraws(s, p, q); }
      case Read => ReadKeepsTickets(s);
    }
  }

  lemma NoneDrawn(p: nat)
    ensures DrawnBy([], [], p) == []
  {
  }

  /**
   * No call vanishes and none counts twice: each producer's calls are its tickets and the line
   * still without one, and the tickets' lines are delivered, overwritten unread, in the ring or
   * in the hands of the producers on their way to it.
   */
  lemma CallsAreConserved(size: nat, producers: nat, schedule: seq<Action>)
    requires size > 0
    ensures var s := Exec(Init(size, producers), schedule);
            && |s.drawn| == |s.drawer|
            && (forall p :: 0 <= p < producers ==>
                  Calls(size, producers, schedule, p) == DrawnBy(s.drawn, s.drawer, p) + Undrawn(s.pcs[p]))
            && multiset(s.drawn) == multiset(s.out) + multiset(s.overwritten) + Held(s.ring) + InHand(s.pcs)
  {
    hide Calls, DrawnBy, Undrawn, Held, InHand, Exec;
    TicketsAccounted(size, producers, schedule);
    LinesAreConserved(size, producers, schedule);
    forall p | 0 <= p < producers
      ensures var s := Exec(Init(size, producers), schedule);
              Calls(size, producers, schedule, p) == DrawnBy(s.drawn, s.drawer, p) + Undrawn(s.pcs[p])
    {
      TicketsFollowCalls(size, producers, schedule, p);
    }
  }
}
