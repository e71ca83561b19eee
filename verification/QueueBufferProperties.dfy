// What the invariant of the log queue means for its users, over every run.
module QueueBufferProperties {
  import opened Machine
  import opened QueueBuffer
  import opened QueueBufferInvariant

  /** A state some interleaving reaches. */
  ghost predicate Reachable(s: State) {
    exists size: nat, producers: nat, schedule ::
      size > 0 && size + producers < TWO_32 && s == Exec(Init(size, producers), schedule)
  }

  lemma ReachableInv(s: State)
    requires Reachable(s)
    ensures Inv(s)
  {
    hide Inv;
    var size: nat, producers: nat, schedule :|
      size > 0 && size + producers < TWO_32 && s == Exec(Init(size, producers), schedule);
    EveryRun(size, producers, schedule);
  }

  /** No run makes an illegal access: see `fault`. */
  lemma NoFault(s: State)
    requires Reachable(s)
    ensures !s.fault
  {
    ReachableInv(s);
  }

  // ---------------------------------------------------------------------- tickets

  predicate EarlierSlot(c: Claim, d: Claim) {
    c.buffer < d.buffer || (c.buffer == d.buffer && c.slot < d.slot)
  }

  predicate NextSlot(size: nat, c: Claim, d: Claim) {
    if c.slot + 1 < size then d.buffer == c.buffer && d.slot == c.slot + 1
    else d.buffer == c.buffer + 1 && d.slot == 0
  }

  lemma OrderFromPositions(size: nat, c: Claim, d: Claim)
    requires c.slot < size && d.slot < size
    requires Position(size, c.buffer, c.slot) < Position(size, d.buffer, d.slot)
    ensures EarlierSlot(c, d)
    ensures Position(size, d.buffer, d.slot) == Position(size, c.buffer, c.slot) + 1 ==> NextSlot(size, c, d)
  {
    if d.buffer < c.buffer {
      PositionOrder(size, d.buffer, c.buffer);
    } else if Position(size, d.buffer, d.slot) == Position(size, c.buffer, c.slot) + 1 {
      if c.slot + 1 < size {
        PositionInjective(size, c.buffer, c.slot + 1, d.buffer, d.slot);
      } else {
        assert Position(size, c.buffer, size) == Position(size, c.buffer + 1, 0);
        PositionInjective(size, c.buffer + 1, 0, d.buffer, d.slot);
      }
    }
  }

  lemma ClaimPositions(s: State)
    requires Inv(s)
    ensures forall k :: 0 <= k < |s.claims| ==>
              s.claims[k].slot < s.size && Position(s.size, s.claims[k].buffer, s.claims[k].slot) == k
  {
  }

  /** Tickets are claimed in strictly increasing (buffer, slot) order: no pair is claimed twice, none is skipped. */
  lemma ClaimsInOrder(s: State, i: nat, j: nat)
    requires Reachable(s) && i < j < |s.claims|
    ensures EarlierSlot(s.claims[i], s.claims[j])
    ensures j == i + 1 ==> NextSlot(s.size, s.claims[i], s.claims[j])
  {
    hide Inv, EarlierSlot, NextSlot, Position, Reachable;
    ReachableInv(s);
    ClaimPositions(s);
    OrderFromPositions(s.size, s.claims[i], s.claims[j]);
  }

  /**
   * The pointer is loaded after the ticket was drawn, yet a producer always writes
   * into the buffer, and the slot, that its latest ticket claimed.
   */
  lemma WritesWhereItClaimed(s: State, p: nat)
    requires Reachable(s) && p < |s.pcs|
    ensures s.pcs[p].LoadBuffer? ==>
              (&& s.lastClaim[p] < |s.claims|
               && s.claims[s.lastClaim[p]] == Claim(p, s.pcs[p].line, s.current, s.pcs[p].ticket))
    ensures s.pcs[p].WriteItem? ==>
              (&& s.lastClaim[p] < |s.claims|
               && s.claims[s.lastClaim[p]] == Claim(p, s.pcs[p].line, s.pcs[p].buffer, s.pcs[p].ticket))
    ensures forall k :: 0 <= k < |s.claims| && s.claims[k].producer == p ==> k <= s.lastClaim[p]
  {
    ReachableInv(s);
    PcOf(s, p);
  }

  /** No two threads ever work on one slot: neither two writers nor a writer and the consumer. */
  lemma SlotsAreExclusive(s: State, p: nat, q: nat)
    requires Reachable(s) && p < |s.pcs| && q < |s.pcs|
    ensures s.pcs[p].WriteItem? && s.pcs[q].WriteItem? && p != q ==>
              (s.pcs[p].buffer, s.pcs[p].ticket) != (s.pcs[q].buffer, s.pcs[q].ticket)
    ensures s.pcs[p].WriteItem? && s.reader == MoveItem && s.readBuffer.Some? ==>
              (s.pcs[p].buffer, s.pcs[p].ticket) != (s.readBuffer.value, s.readIndex)
  {
    ReachableInv(s);
    PcOf(s, p);
    PcOf(s, q);
    if s.pcs[p].WriteItem? {
      HeldSlot(s, p, s.pcs[p].ticket);
    }
    hide SlotsInv, PcsInv, FinishedInv, PhaseInv, IndexInv, QueueInv, OutInv, OrderInv, LinesOf, ClaimsInv, Position;
  }

  // ------------------------------------------------------------------- contention

  /** A producer that will reopen the ticket counter, or must finish before it can be reopened. */
  predicate Working(pc: ProducerPc) {
    !pc.Idle? && !pc.TakeTicket? && !pc.SpinWait?
  }

  /** Whenever the tickets are used up some producer is at work, so spinners never wait on each other. */
  lemma SomebodyWorks(s: State) returns (p: nat)
    requires Inv(s) && s.writeIndex >= s.size
    ensures p < |s.pcs| && Working(s.pcs[p])
  {
    hide LinesOf, PcsInv, QueueInv, ReaderInv, OutInv, OrderInv, IndexInv;
    if s.installer.Some? {
      p := s.installer.value;
    } else {
      var t: nat :| t in AllSlots(s.size) && t !in s.finished[s.current];
      assert SlotInv(s, s.current, t);
      p := s.claims[Position(s.size, s.current, t)].producer;
    }
  }

  /** The ticket counter never gets past size + producers - 1, so its 32 bits do not wrap. */
  lemma TicketBound(s: State)
    requires Reachable(s)
    ensures s.writeIndex <= s.size || s.writeIndex < s.size + |s.pcs|
    ensures s.writeIndex < TWO_32
  {
    ReachableInv(s);
    SubsetSize(Spinners(s), |s.pcs|);
    if s.writeIndex > s.size {
      var p := SomebodyWorks(s);
      assert p !in Spinners(s) && p in AllSlots(|s.pcs|);
    }
  }

  // --------------------------------------------------------------------- delivery

  /** The lines of one producer's push() calls, read off the schedule; a call begins when its last one is over. */
  function Calls(size: nat, producers: nat, schedule: seq<Action>, p: nat): seq<Line>
    requires p < producers
    decreases |schedule|
  {
    if schedule == [] then []
    else
      var before, a := schedule[..|schedule| - 1], schedule[|schedule| - 1];
      var calls := Calls(size, producers, before, p);
      if a.Push? && a.producer == p && Exec(Init(size, producers), before).pcs[p] == Idle then calls + [a.line]
      else calls
  }

  lemma StepCallsNothing(s: State, p: nat)
    requires Sized(s) && p < |s.pcs|
    ensures DoStep(s, p).pushed == s.pushed
  {
  }

  lemma ReadCallsNothing(s: State)
    requires Sized(s)
    ensures DoRead(s).pushed == s.pushed
  {
  }

  lemma {:induction false} HistoryIsTheCalls(size: nat, producers: nat, schedule: seq<Action>, p: nat)
    requires p < producers
    ensures Exec(Init(size, producers), schedule).pushed[p] == Calls(size, producers, schedule, p)
    decreases |schedule|
  {
    hide DoStep, DoRead;
    if schedule != [] {
      var before, a := schedule[..|schedule| - 1], schedule[|schedule| - 1];
      var s := Exec(Init(size, producers), before);
      HistoryIsTheCalls(size, producers, before, p);
      match a
      case Push(q, line) =>
      case Step(q) => if q < |s.pcs| { StepCallsNothing(s, q); }
      case Read => ReadCallsNothing(s);
    }
  }

  lemma RunReaches(size: nat, producers: nat, schedule: seq<Action>)
    requires size > 0 && size + producers < TWO_32
    ensures Reachable(Exec(Init(size, producers), schedule))
  {
  }

  function Lines(claims: seq<Claim>): (lines: seq<Line>)
    ensures |lines| == |claims|
    ensures forall i :: 0 <= i < |lines| ==> lines[i] == claims[i].line
  {
    seq(|claims|, i requires 0 <= i < |claims| => claims[i].line)
  }

  /** The consumer has received exactly the lines of the first tickets, in ticket order. */
  lemma DeliversInTicketOrder(s: State)
    requires Reachable(s)
    ensures s.out <= Lines(s.claims)
  {
    ReachableInv(s);
  }

  lemma {:induction false} LinesOfPrefix(claims: seq<Claim>, n: nat, p: nat)
    requires n <= |claims|
    ensures LinesOf(claims[..n], p) <= LinesOf(claims, p)
    decreases |claims|
  {
    if n < |claims| {
      var init := claims[..|claims| - 1];
      LinesOfPrefix(init, n, p);
      assert init[..n] == claims[..n];
    } else {
      assert claims[..n] == claims;
    }
  }

  /** What a producer's lines have come out so far is a prefix of its own calls, in program order. */
  lemma DeliversInProgramOrder(size: nat, producers: nat, schedule: seq<Action>, p: nat)
    requires size > 0 && size + producers < TWO_32 && p < producers
    ensures var s := Exec(Init(size, producers), schedule);
            |s.out| <= |s.claims| && LinesOf(s.claims[..|s.out|], p) <= Calls(size, producers, schedule, p)
  {
    hide Inv, LinesOf, Reachable, Calls;
    var s := Exec(Init(size, producers), schedule);
    RunReaches(size, producers, schedule);
    ReachableInv(s);
    LinesAccounted(s);
    LinesOfPrefix(s.claims, |s.out|, p);
    HistoryIsTheCalls(size, producers, schedule, p);
  }

  /** Where the line of an undelivered claim is: in its slot, or in the hands of the producer on its way there. */
  predicate Intact(s: State, k: nat)
    requires Sized(s) && k < |s.claims|
  {
    var c := s.claims[k];
    && c.buffer in s.queue && SlotExists(s, c.buffer, c.slot)
    && if s.buffers[c.buffer].writeState[c.slot] then s.buffers[c.buffer].items[c.slot] == Full(c.line)
       else
         && c.producer < |s.pcs| && s.lastClaim[c.producer] == k
         && match s.pcs[c.producer]
            case LoadBuffer(line, t) => t == c.slot && line == c.line
            case WriteItem(line, t, b) => t == c.slot && b == c.buffer && line == c.line
            case StoreState(t, b) => t == c.slot && b == c.buffer && s.buffers[b].items[t] == Full(c.line)
            case _ => false
  }

  /**
   * Nothing is lost, whatever pushes are under way: every line that a producer has begun to
   * push is still without a ticket, or claimed; and every claimed line that has not been
   * delivered is intact, published in its slot or held by the producer about to publish it.
   */
  lemma NothingIsLost(size: nat, producers: nat, schedule: seq<Action>)
    requires size > 0 && size + producers < TWO_32
    ensures var s := Exec(Init(size, producers), schedule);
            && |s.out| <= |s.claims|
            && (forall p :: 0 <= p < producers ==>
                  Calls(size, producers, schedule, p) == LinesOf(s.claims, p) + Unclaimed(s.pcs[p]))
            && (forall k :: 0 <= k < |s.out| ==> s.out[k] == s.claims[k].line)
            && (forall k :: |s.out| <= k < |s.claims| ==> Intact(s, k))
  {
    hide Inv, LinesOf, Intact, Reachable, Calls, Unclaimed;
    var s := Exec(Init(size, producers), schedule);
    RunReaches(size, producers, schedule);
    ReachableInv(s);
    LinesAccounted(s);
    forall p | 0 <= p < producers
      ensures Calls(size, producers, schedule, p) == LinesOf(s.claims, p) + Unclaimed(s.pcs[p])
    {
      HistoryIsTheCalls(size, producers, schedule, p);
    }
    forall k | |s.out| <= k < |s.claims| ensures Intact(s, k) {
      PendingItem(s, k);
    }
  }

  lemma LinesAccounted(s: State)
    requires Inv(s)
    ensures Sized(s) && |s.out| <= |s.claims|
    ensures forall p :: 0 <= p < |s.pcs| ==> s.pushed[p] == LinesOf(s.claims, p) + Unclaimed(s.pcs[p])
    ensures forall k :: 0 <= k < |s.out| ==> s.out[k] == s.claims[k].line
  {
    hide LinesOf, ClaimsInv, SlotsInv, PcsInv, FinishedInv, PhaseInv, Position;
  }

  lemma PendingItem(s: State, k: nat)
    requires Inv(s) && |s.out| <= k < |s.claims|
    ensures Intact(s, k)
  {
    hide LinesOf, PcsInv, PcInv, OrderInv, IndexInv, FinishedInv, AllSlots;
    var c := s.claims[k];
    assert SlotInv(s, c.buffer, c.slot);
    if c.buffer < s.popped {
      PositionOrder(s.size, c.buffer, s.popped);
    }
    assert s.queue[c.buffer - s.popped] == c.buffer;
  }

  /** In particular, when no push is under way every pushed line is delivered or waits published in a queued buffer. */
  lemma NothingIsLostAtRest(size: nat, producers: nat, schedule: seq<Action>)
    requires size > 0 && size + producers < TWO_32
    requires forall p :: 0 <= p < producers ==> Exec(Init(size, producers), schedule).pcs[p] == Idle
    ensures var s := Exec(Init(size, producers), schedule);
            && (forall p :: 0 <= p < producers ==> Calls(size, producers, schedule, p) == LinesOf(s.claims, p))
            && (forall k :: |s.out| <= k < |s.claims| ==>
                  var c := s.claims[k];
                  && c.buffer in s.queue && SlotExists(s, c.buffer, c.slot)
                  && s.buffers[c.buffer].items[c.slot] == Full(c.line) && s.buffers[c.buffer].writeState[c.slot])
  {
    hide LinesOf, Calls;
    var s := Exec(Init(size, producers), schedule);
    NothingIsLost(size, producers, schedule);
    forall k | |s.out| <= k < |s.claims|
      ensures var c := s.claims[k];
              && c.buffer in s.queue && SlotExists(s, c.buffer, c.slot)
              && s.buffers[c.buffer].items[c.slot] == Full(c.line) && s.buffers[c.buffer].writeState[c.slot]
    {
      assert Intact(s, k);
    }
  }

  /** Delivered lines stay delivered, and claimed tickets stay claimed. */
  lemma HistoryGrows(s: State, a: Action)
    requires Sized(s)
    ensures s.out <= Apply(s, a).out && s.claims <= Apply(s, a).claims
  {
    match a
    case Push(p, line) =>
    case Step(p) => if p < |s.pcs| { StepHistory(s, p); }
    case Read => ReadHistory(s);
  }

  lemma StepHistory(s: State, p: nat)
    requires Sized(s) && p < |s.pcs|
    ensures s.out <= DoStep(s, p).out && s.claims <= DoStep(s, p).claims
  {
    match s.pcs[p]
    case TakeTicket(line) =>
    case CountItem(t, b) =>
    case WriteItem(line, t, b) =>
    case StoreState(t, b) =>
    case _ =>
  }

  lemma ReadHistory(s: State)
    requires Sized(s)
    ensures s.out <= DoRead(s).out && s.claims <= DoRead(s).claims
  {
    if s.reader == MoveItem {
      assert s.out <= DoMoveItem(s).out && s.claims <= DoMoveItem(s).claims;
    }
  }

  lemma {:induction false} LaterRun(size: nat, producers: nat, schedule: seq<Action>, n: nat)
    requires n <= |schedule|
    ensures Exec(Init(size, producers), schedule[..n]).out <= Exec(Init(size, producers), schedule).out
    decreases |schedule|
  {
    hide Inv, Apply;
    if n == |schedule| {
      assert schedule[..n] == schedule;
    } else {
      var before := schedule[..|schedule| - 1];
      assert before[..n] == schedule[..n];
      LaterRun(size, producers, before, n);
      HistoryGrows(Exec(Init(size, producers), before), schedule[|schedule| - 1]);
    }
  }
}
