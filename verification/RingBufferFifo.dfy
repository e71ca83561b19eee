// The ring buffer when it does not overflow: as long as tickets never run more
// than `size` ahead of pops, it delivers every line, in ticket order.
module RingBufferFifo {
  import opened Machine
  import opened RingBuffer
  import opened RingBufferInvariant
  import opened Threads

  // ------------------------------------------------------------------ hypotheses

  /** Tickets issued and not yet popped fit in the ring. */
  predicate WithinCapacity(s: State) {
    |s.drawn| <= |s.out| + s.size
  }

  /**
   * The counters select the right item: either they have not wrapped, or the ring's
   * size divides their range, as it does when it is a power of two.
   */
  predicate CountersSelect(s: State)
    requires s.size > 0
  {
    && (|s.drawn| <= TWO_64 || TWO_64 % s.size == 0)
    && (|s.out| <= TWO_32 || TWO_32 % s.size == 0)
  }

  // -------------------------------------------------------------------- invariant

  /** Pops that have advanced the read index. */
  function Advanced(s: State): int {
    if s.reader.ClearWritten? || s.reader.AdvanceIndex? then |s.out| - 1 else |s.out|
  }

  predicate CountersInv(s: State) {
    && s.writeIndex == |s.drawn| % TWO_64
    && Advanced(s) >= 0 && s.readIndex == Advanced(s) % TWO_32
  }

  predicate DeliveredInv(s: State) {
    && |s.out| <= |s.drawn| == |s.drawer|
    && (forall k :: 0 <= k < |s.out| ==> s.out[k] == s.drawn[k] && k in s.storedTickets)
    && (forall k :: k in s.storedTickets ==> k < |s.drawn|)
    && s.overwritten == []
  }

  predicate Carrying(pc: ProducerPc) {
    pc.LockItem? || pc.StoreLine?
  }

  /** A ticket whose line is not stored yet is in the hands of the producer that drew it. */
  predicate PendingInv(s: State)
    requires Sized(s)
  {
    && |s.drawer| == |s.drawn|
    && (forall k :: 0 <= k < |s.drawn| && k !in s.storedTickets ==>
          s.drawer[k] < |s.pcs| && s.lastTicket[s.drawer[k]] == k && Carrying(s.pcs[s.drawer[k]]))
    && (forall p :: 0 <= p < |s.pcs| && Carrying(s.pcs[p]) ==> CarriesTicket(s, p))
  }

  predicate CarriesTicket(s: State, p: nat)
    requires Sized(s) && p < |s.pcs| && Carrying(s.pcs[p]) && |s.drawer| == |s.drawn|
  {
    var k := s.lastTicket[p];
    k < |s.drawn| && s.drawer[k] == p && k !in s.storedTickets && s.drawn[k] == s.pcs[p].line && s.pcs[p].index == k % s.size
  }

  /** An item holds a line exactly for the stored, undelivered ticket of its residue. */
  predicate SlotsInv(s: State)
    requires Sized(s)
  {
    && (forall i :: 0 <= i < s.size && s.ring[i].line.Some? ==> SlotHolds(s, i))
    && (forall k :: |s.out| <= k < |s.drawn| && k in s.storedTickets ==>
          s.slotTicket[k % s.size] == k && s.ring[k % s.size].line.Some?)
  }

  predicate SlotHolds(s: State, i: nat)
    requires Sized(s) && i < s.size && s.ring[i].line.Some?
  {
    var k := s.slotTicket[i];
    |s.out| <= k < |s.drawn| && k in s.storedTickets && k % s.size == i && s.drawn[k] == s.ring[i].line.value
  }

  predicate Fifo(s: State)
    requires Sized(s)
  {
    CountersInv(s) && DeliveredInv(s) && PendingInv(s) && SlotsInv(s)
  }

  lemma InitFifo(size: nat, producers: nat)
    requires size > 0
    ensures Fifo(Init(size, producers))
  {
  }

  // ------------------------------------------------------------------------ steps

  /** Moves that neither draw, store nor deliver. */
  lemma OtherMove(s: State, s': State)
    requires Sized(s) && Sized(s') && Fifo(s) && s'.size == s.size && |s'.pcs| == |s.pcs|
    requires s'.drawn == s.drawn && s'.drawer == s.drawer && s'.lastTicket == s.lastTicket
    requires s'.storedTickets == s.storedTickets && s'.slotTicket == s.slotTicket
    requires s'.overwritten == s.overwritten && s'.out == s.out && s'.writeIndex == s.writeIndex
    requires forall i :: 0 <= i < s.size ==> s'.ring[i].line == s.ring[i].line
    requires forall p :: 0 <= p < |s.pcs| ==>
               Carrying(s'.pcs[p]) == Carrying(s.pcs[p]) &&
               (Carrying(s.pcs[p]) ==> s'.pcs[p].line == s.pcs[p].line && s'.pcs[p].index == s.pcs[p].index)
    requires CountersInv(s')
    ensures Fifo(s')
  {
    forall p | 0 <= p < |s.pcs| && Carrying(s'.pcs[p]) ensures CarriesTicket(s', p) {
      assert CarriesTicket(s, p);
    }
    forall i | 0 <= i < s.size && s'.ring[i].line.Some? ensures SlotHolds(s', i) {
      assert SlotHolds(s, i);
    }
  }

  lemma TakeTicketFifo(s: State, p: nat, line: Line)
    requires Sized(s) && Fifo(s) && p < |s.pcs| && s.pcs[p] == TakeTicket(line)
    requires CountersSelect(DoTakeTicket(s, p, line))
    ensures Fifo(DoTakeTicket(s, p, line))
  {
    var s' := DoTakeTicket(s, p, line);
    var k := |s.drawn|;
    CounterSelects(k, TWO_64, s.size);
    Increment(k, TWO_64);
    assert k !in s.storedTickets;
    forall q | 0 <= q < |s.pcs| && Carrying(s'.pcs[q]) ensures CarriesTicket(s', q) {
      if q != p {
        assert CarriesTicket(s, q);
      }
    }
    forall i | 0 <= i < s.size && s'.ring[i].line.Some? ensures SlotHolds(s', i) {
      assert SlotHolds(s, i);
    }
  }

  /** Within capacity the item a line is stored into is empty. */
  lemma StoreFindsRoom(s: State, p: nat)
    requires Sized(s) && Fifo(s) && WithinCapacity(s) && p < |s.pcs| && s.pcs[p].StoreLine?
    ensures CarriesTicket(s, p) && s.lastTicket[p] >= |s.out| && s.pcs[p].index < s.size
    ensures s.ring[s.pcs[p].index].line == None
  {
    assert CarriesTicket(s, p);
    var k, i := s.lastTicket[p], s.pcs[p].index;
    if s.ring[i].line.Some? {
      assert SlotHolds(s, i);
      SameResidue(k, s.slotTicket[i], s.size);
    }
  }

  lemma StoreLineFifo(s: State, p: nat, line: Line, i: nat)
    requires Sized(s) && Fifo(s) && WithinCapacity(s) && p < |s.pcs| && s.pcs[p] == StoreLine(line, i)
    requires Owns(s, i, Producer(p))
    ensures Fifo(DoStoreLine(s, p, line, i))
  {
    var s' := DoStoreLine(s, p, line, i);
    StoreFindsRoom(s, p);
    forall q | 0 <= q < |s.pcs| && Carrying(s'.pcs[q]) ensures CarriesTicket(s', q) {
      assert CarriesTicket(s, q);
    }
    forall j | 0 <= j < s.size && s'.ring[j].line.Some? ensures SlotHolds(s', j) {
      if j != i {
        assert SlotHolds(s, j);
      }
    }
  }

  /** The consumer's item holds the line of the oldest undelivered ticket. */
  lemma MoveFindsOldest(s: State, i: nat)
    requires Sized(s) && Fifo(s) && WithinCapacity(s) && (|s.out| < TWO_32 || TWO_32 % s.size == 0)
    requires s.reader == MoveLine(i) && i == s.readIndex % s.size && s.ring[i].line.Some?
    ensures i == |s.out| % s.size && |s.out| < |s.drawn| && s.slotTicket[i] == |s.out|
    ensures s.ring[i].line.value == s.drawn[|s.out|] && |s.out| in s.storedTickets
  {
    assert SlotHolds(s, i);
    CounterSelects(|s.out|, TWO_32, s.size);
    SameResidue(s.slotTicket[i], |s.out|, s.size);
  }

  lemma MoveLineFifo(s: State, i: nat)
    requires Sized(s) && Fifo(s) && WithinCapacity(s) && (|s.out| < TWO_32 || TWO_32 % s.size == 0)
    requires s.reader == MoveLine(i) && i == s.readIndex % s.size && Owns(s, i, Consumer) && s.ring[i].line.Some?
    ensures Fifo(DoMoveLine(s, i))
  {
    var s' := DoMoveLine(s, i);
    MoveFindsOldest(s, i);
    forall p | 0 <= p < |s.pcs| && Carrying(s'.pcs[p]) ensures CarriesTicket(s', p) {
      assert CarriesTicket(s, p);
    }
    forall j | 0 <= j < s.size && s'.ring[j].line.Some? ensures SlotHolds(s', j) {
      assert SlotHolds(s, j);
    }
    forall l | |s'.out| <= l < |s'.drawn| && l in s'.storedTickets
      ensures s'.slotTicket[l % s.size] == l && s'.ring[l % s.size].line.Some?
    {
      if l % s.size == i {
        SameResidue(l, |s.out|, s.size);
      }
    }
  }

  lemma StepFifo(s: State, p: nat)
    requires Sized(s) && Inv(s) && Fifo(s) && WithinCapacity(s) && p < |s.pcs| && CountersSelect(DoStep(s, p))
    ensures Fifo(DoStep(s, p))
  {
    hide Inv, Fifo, CountersSelect, WithinCapacity;
    match s.pcs[p]
    case Idle =>
    case TakeTicket(line) => TakeTicketFifo(s, p, line);
    case StoreLine(line, i) => OwnItem(s, p, i); StoreLineFifo(s, p, line, i);
    case LockItem(line, i) => QuietFifo(s, p);
    case SetWritten(i) => OwnItem(s, p, i); QuietFifo(s, p);
    case UnlockItem(i) => OwnItem(s, p, i); QuietFifo(s, p);
  }

  lemma QuietFifo(s: State, p: nat)
    requires Sized(s) && Fifo(s) && p < |s.pcs|
    requires s.pcs[p].LockItem? || s.pcs[p].SetWritten? || s.pcs[p].UnlockItem?
    ensures Fifo(DoStep(s, p))
  {
    hide DeliveredInv, PendingInv, SlotsInv;
    OtherMove(s, DoStep(s, p));
  }

  lemma ReadFifo(s: State)
    requires Sized(s) && Inv(s) && Fifo(s) && WithinCapacity(s) && CountersSelect(DoRead(s))
    ensures Fifo(DoRead(s))
  {
    hide Inv, DeliveredInv, PendingInv, SlotsInv, WithinCapacity;
    if s.reader.MoveLine? {
      OwnReadItem(s);
      ReaderAtIndex(s);
      MoveLineFifo(s, s.reader.index);
    } else {
      if s.reader.AdvanceIndex? {
        Increment(Advanced(s), TWO_32);
      }
      OtherMove(s, DoRead(s));
    }
  }

  lemma ReaderAtIndex(s: State)
    requires Inv(s) && s.reader.MoveLine?
    ensures s.reader.index == s.readIndex % s.size
  {
  }

  lemma ApplyFifo(s: State, a: Action)
    requires Sized(s) && Inv(s) && Fifo(s) && WithinCapacity(s) && CountersSelect(Apply(s, a))
    ensures Fifo(Apply(s, a))
  {
    hide Inv, DeliveredInv, PendingInv, SlotsInv, WithinCapacity, CountersSelect;
    match a
    case Push(p, line) =>
      if p < |s.pcs| {
        OtherMove(s, DoPush(s, p, line));
      }
    case Step(p) => if p < |s.pcs| { StepFifo(s, p); }
    case Read => ReadFifo(s);
  }

  /** Tickets and pops only accumulate. */
  lemma CountsGrow(s: State, a: Action)
    requires Sized(s) && CountersSelect(Apply(s, a))
    ensures CountersSelect(s)
  {
    match a
    case Push(p, line) =>
    case Step(p) =>
    case Read =>
  }

  // -------------------------------------------------------------------- every run

  /** The whole run stays within capacity. */
  predicate NeverOverfull(size: nat, producers: nat, schedule: seq<Action>)
    requires size > 0
  {
    forall n :: 0 <= n <= |schedule| ==> WithinCapacity(Exec(Init(size, producers), schedule[..n]))
  }

  lemma {:induction false} RunFifo(size: nat, producers: nat, schedule: seq<Action>)
    requires size > 0 && NeverOverfull(size, producers, schedule)
    requires CountersSelect(Exec(Init(size, producers), schedule))
    ensures Fifo(Exec(Init(size, producers), schedule))
    decreases |schedule|
  {
    hide Inv, Fifo, Apply, WithinCapacity, CountersSelect;
    if schedule == [] {
      InitFifo(size, producers);
    } else {
      var before := schedule[..|schedule| - 1];
      var s, a := Exec(Init(size, producers), before), schedule[|schedule| - 1];
      forall n | 0 <= n <= |before| ensures WithinCapacity(Exec(Init(size, producers), before[..n])) {
        assert before[..n] == schedule[..n];
      }
      assert before[..|before|] == before;
      CountsGrow(s, a);
      RunFifo(size, producers, before);
      EveryRun(size, producers, before);
      ApplyFifo(s, a);
    }
  }

  /** Within capacity the ring is an exact first-in first-out queue by ticket, and drops nothing. */
  lemma {:induction false} DeliversInTicketOrder(size: nat, producers: nat, schedule: seq<Action>)
    requires size > 0 && NeverOverfull(size, producers, schedule)
    requires CountersSelect(Exec(Init(size, producers), schedule))
    ensures var s := Exec(Init(size, producers), schedule);
            s.out <= s.drawn && s.overwritten == []
  {
    RunFifo(size, producers, schedule);
    hide PendingInv, SlotsInv, CountersInv, NeverOverfull, CountersSelect;
  }

  lemma ExecSnoc(s: State, schedule: seq<Action>, a: Action)
    requires Sized(s)
    ensures Exec(s, schedule + [a]) == Apply(Exec(s, schedule), a)
  {
    assert (schedule + [a])[..|schedule|] == schedule;
  }

  /** The five steps of producer 0's push, alone, in a ring of one item. */
  lemma PushSteps(t: State, line: Line)
    requires Sized(t) && t.size == 1 && t.pcs == [Idle] && t.ring[0].flag == Nobody
    ensures var s1 := DoPush(t, 0, line);
            var s3 := DoStep(DoStep(s1, 0), 0);
            && Sized(s1) && Sized(DoStep(s1, 0)) && Sized(s3) && s3.pcs == [StoreLine(line, 0)]
            && s3.ring == [t.ring[0].(flag := Producer(0))]
            && s3.drawn == t.drawn + [line] && s3.out == t.out && s3.overwritten == t.overwritten && s3.size == 1
  {
    hide DoStoreLine, DoSetWritten, DoUnlockItem;
  }

  lemma StoreSteps(t: State, line: Line)
    requires Sized(t) && t.size == 1 && t.pcs == [StoreLine(line, 0)] && t.ring[0].flag == Producer(0)
    ensures var s1 := DoStep(t, 0);
            var s3 := DoStep(DoStep(s1, 0), 0);
            && Sized(s1) && Sized(DoStep(s1, 0)) && s3.pcs == [Idle] && s3.ring == [Item(Nobody, true, Some(line))]
            && s3.drawn == t.drawn && s3.out == t.out
            && s3.overwritten == t.overwritten + if t.ring[0].line.Some? then [t.ring[0].line.value] else []
  {
    hide DoTakeTicket, DoLockItem;
  }

  /** A whole push by producer 0, alone, into a ring of one item. */
  lemma PushAlone(s: State, schedule: seq<Action>, line: Line) returns (schedule': seq<Action>)
    requires Sized(s) && s.size == 1 && |s.pcs| == 1
    requires var t := Exec(s, schedule); t.pcs == [Idle] && t.ring[0].flag == Nobody
    ensures var t, t' := Exec(s, schedule), Exec(s, schedule');
            && t'.pcs == [Idle] && t'.ring == [Item(Nobody, true, Some(line))]
            && t'.drawn == t.drawn + [line] && t'.out == t.out
            && t'.overwritten == t.overwritten + if t.ring[0].line.Some? then [t.ring[0].line.value] else []
  {
    hide DoPush, DoStep, Exec;
    PushSteps(Exec(s, schedule), line);
    ExecSnoc(s, schedule, Push(0, line));
    schedule' := schedule + [Push(0, line)];
    ExecSnoc(s, schedule', Step(0));
    schedule' := schedule' + [Step(0)];
    ExecSnoc(s, schedule', Step(0));
    schedule' := schedule' + [Step(0)];
    StoreSteps(Exec(s, schedule'), line);
    ExecSnoc(s, schedule', Step(0));
    schedule' := schedule' + [Step(0)];
    ExecSnoc(s, schedule', Step(0));
    schedule' := schedule' + [Step(0)];
    ExecSnoc(s, schedule', Step(0));
    schedule' := schedule' + [Step(0)];
  }

  /** Beyond capacity a line can be lost: two pushes into a ring of one item. */
  lemma OverfullLosesALine(first: Line, second: Line) returns (schedule: seq<Action>)
    ensures var s := Exec(Init(1, 1), schedule);
            s.drawn == [first, second] && s.overwritten == [first] && s.out == []
  {
    schedule := PushAlone(Init(1, 1), [], first);
    schedule := PushAlone(Init(1, 1), schedule, second);
  }
}
