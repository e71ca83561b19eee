// The log queue as the C++ class: its members, one method per atomic operation,
// and push / try_pop composed of them.  The methods for single operations follow
// the steps of module QueueBuffer; composed without interruption they make a
// first-in first-out queue.
module QueueBufferObject {
  import opened Machine
  import opened QueueBuffer
  import opened QueueBufferInvariant
  import opened QueueBufferProperties
  import opened Threads

  /** No call is under way. */
  ghost predicate Quiescent(s: State) {
    Inv(s) && (forall p :: 0 <= p < |s.pcs| ==> s.pcs[p] == Idle) && s.reader == Start && s.lock == Nobody
  }

  /** Lines pushed and not yet popped. */
  ghost function Pending(s: State): seq<Line>
    requires |s.out| <= |s.claims|
  {
    Lines(s.claims)[|s.out|..]
  }

  /** Without a push under way the ticket counter is open. */
  lemma QuiescentIsOpen(s: State)
    requires Quiescent(s)
    ensures s.writeIndex < s.size && s.installer == None && |s.out| <= |s.claims|
  {
    if s.writeIndex >= s.size {
      var p := SomebodyWorks(s);
    }
  }

  class LogQueue {
    const size: nat
    var buffers: seq<Buffer>
    var currentWriteBuffer: nat
    var writeIndex: nat
    var queue: seq<nat>
    var flags: bool
    var currentReadBuffer: Option<nat>
    var readIndex: nat
    // where the threads are, who holds the flag, and the history
    ghost var threads: State

    /** The state this object and its threads are in. */
    ghost function Abs(): State
      reads this
    {
      threads.(size := size, buffers := buffers, current := currentWriteBuffer, writeIndex := writeIndex,
               queue := queue, readBuffer := currentReadBuffer, readIndex := readIndex)
    }

    ghost predicate Valid()
      reads this
    {
      Inv(Abs()) && Sized(Abs()) && (flags <==> threads.lock != Nobody)
    }

    ghost predicate At(p: nat, pc: ProducerPc)
      reads this
    {
      p < |threads.pcs| && threads.pcs[p] == pc
    }

    constructor (size: nat, ghost producers: nat)
      requires size > 0 && size + producers < TWO_32
      ensures Valid() && Abs() == Init(size, producers)
    {
      this.size := size;
      buffers := [NewItems(size)];
      currentWriteBuffer := 0;
      writeIndex := 0;
      queue := [0];
      flags := false;
      currentReadBuffer := None;
      readIndex := 0;
      threads := Init(size, producers);
      InitInv(size, producers);
    }

    // ------------------------------------------------- operations of a producer

    ghost method EnterPush(p: nat, line: Line)
      requires Valid() && p < |threads.pcs|
      modifies this
      ensures Valid() && Abs() == DoPush(old(Abs()), p, line)
    {
      hide Inv;
      PushKeeps(Abs(), p, line);
      threads := DoPush(Abs(), p, line);
    }

    method FetchAddWriteIndex(ghost p: nat, ghost line: Line) returns (ticket: nat)
      requires Valid() && At(p, TakeTicket(line))
      modifies this
      ensures Valid() && Abs() == DoStep(old(Abs()), p)
      ensures ticket == old(writeIndex)
      ensures At(p, if ticket < size then LoadBuffer(line, ticket) else SpinWait(line))
    {
      hide Inv;
      StepKeeps(Abs(), p);
      threads := DoStep(Abs(), p);
      ticket := writeIndex;
      writeIndex := (writeIndex + 1) % TWO_32;
    }

    method LoadCurrentWriteBuffer(ghost p: nat, ghost line: Line, ghost ticket: nat) returns (buffer: nat)
      requires Valid() && At(p, LoadBuffer(line, ticket))
      modifies this
      ensures Valid() && Abs() == DoStep(old(Abs()), p)
      ensures At(p, WriteItem(line, ticket, buffer))
    {
      hide Inv;
      StepKeeps(Abs(), p);
      threads := DoStep(Abs(), p);
      buffer := currentWriteBuffer;
    }

    method ConstructItem(ghost p: nat, line: Line, ticket: nat, buffer: nat)
      requires Valid() && At(p, WriteItem(line, ticket, buffer))
      modifies this
      ensures Valid() && Abs() == DoStep(old(Abs()), p)
      ensures At(p, StoreState(ticket, buffer))
    {
      hide Inv;
      SlotInBounds(Abs(), p);
      StepKeeps(Abs(), p);
      threads := DoStep(Abs(), p);
      var b := buffers[buffer];
      buffers := buffers[buffer := b.(items := b.items[ticket := Full(line)])];
    }

    method StoreWriteState(ghost p: nat, ticket: nat, buffer: nat)
      requires Valid() && At(p, StoreState(ticket, buffer))
      modifies this
      ensures Valid() && Abs() == DoStep(old(Abs()), p)
      ensures At(p, CountItem(ticket, buffer))
    {
      hide Inv;
      SlotInBounds(Abs(), p);
      StepKeeps(Abs(), p);
      threads := DoStep(Abs(), p);
      var b := buffers[buffer];
      buffers := buffers[buffer := b.(writeState := b.writeState[ticket := true])];
    }

    method FetchAddWriteCount(ghost p: nat, ghost ticket: nat, buffer: nat) returns (complete: bool)
      requires Valid() && At(p, CountItem(ticket, buffer))
      modifies this
      ensures Valid() && Abs() == DoStep(old(Abs()), p)
      ensures At(p, if complete then NewBuffer else Idle)
    {
      hide Inv;
      SlotInBounds(Abs(), p);
      StepKeeps(Abs(), p);
      threads := DoStep(Abs(), p);
      var b := buffers[buffer];
      buffers := buffers[buffer := b.(writeCount := b.writeCount + 1)];
      complete := b.writeCount + 1 == size;
    }

    method StoreNewWriteBuffer(ghost p: nat) returns (buffer: nat)
      requires Valid() && At(p, NewBuffer)
      modifies this
      ensures Valid() && Abs() == DoStep(old(Abs()), p)
      ensures At(p, LockQueue(buffer))
    {
      hide Inv;
      StepKeeps(Abs(), p);
      threads := DoStep(Abs(), p);
      buffer := |buffers|;
      buffers := buffers + [NewItems(size)];
      currentWriteBuffer := buffer;
    }

    /** One test_and_set of the spin lock. */
    method TryLock(ghost p: nat, ghost buffer: nat) returns (acquired: bool)
      requires Valid() && At(p, LockQueue(buffer))
      modifies this
      ensures Valid() && Abs() == DoStep(old(Abs()), p)
      ensures acquired == !old(flags)
      ensures At(p, if acquired then PushBuffer(buffer) else LockQueue(buffer))
    {
      hide Inv;
      StepKeeps(Abs(), p);
      threads := DoStep(Abs(), p);
      acquired := !flags;
      flags := true;
    }

    method EnqueueBuffer(ghost p: nat, buffer: nat)
      requires Valid() && At(p, PushBuffer(buffer))
      modifies this
      ensures Valid() && Abs() == DoStep(old(Abs()), p)
      ensures At(p, ResetIndex)
    {
      hide Inv;
      LockHeld(Abs(), p);
      StepKeeps(Abs(), p);
      threads := DoStep(Abs(), p);
      queue := queue + [buffer];
    }

    method ResetWriteIndex(ghost p: nat)
      requires Valid() && At(p, ResetIndex)
      modifies this
      ensures Valid() && Abs() == DoStep(old(Abs()), p)
      ensures At(p, UnlockQueue)
    {
      hide Inv;
      StepKeeps(Abs(), p);
      threads := DoStep(Abs(), p);
      writeIndex := 0;
    }

    method Unlock(ghost p: nat)
      requires Valid() && At(p, UnlockQueue)
      modifies this
      ensures Valid() && Abs() == DoStep(old(Abs()), p)
      ensures At(p, Idle)
    {
      hide Inv;
      LockHeld(Abs(), p);
      StepKeeps(Abs(), p);
      threads := DoStep(Abs(), p);
      flags := false;
    }

    // ----------------------------------------------- operations of the consumer

    method CheckReadBuffer() returns (empty: bool)
      requires Valid() && threads.reader == Start
      modifies this
      ensures Valid() && Abs() == DoRead(old(Abs()))
      ensures empty <==> currentReadBuffer == None
      ensures threads.reader == if empty then LockFront else LoadState
    {
      hide Inv;
      ReadKeeps(Abs());
      threads := DoRead(Abs());
      empty := currentReadBuffer == None;
    }

    method ReaderTryLock() returns (acquired: bool)
      requires Valid() && threads.reader in {LockFront, LockPop}
      modifies this
      ensures Valid() && Abs() == DoRead(old(Abs()))
      ensures acquired == !old(flags)
      ensures acquired ==> threads.reader == if old(threads.reader) == LockFront then ReadFront else PopFront
    {
      hide Inv;
      ReadKeeps(Abs());
      threads := DoRead(Abs());
      acquired := !flags;
      flags := true;
    }

    method LoadFront()
      requires Valid() && threads.reader == ReadFront
      modifies this
      ensures Valid() && Abs() == DoRead(old(Abs()))
      ensures threads.reader == UnlockFront && currentReadBuffer == if queue == [] then None else Some(queue[0])
    {
      hide Inv;
      ReaderLockHeld(Abs());
      ReadKeeps(Abs());
      threads := DoRead(Abs());
      currentReadBuffer := if queue == [] then None else Some(queue[0]);
    }

    method ReaderUnlock()
      requires Valid() && threads.reader in {UnlockFront, UnlockPop}
      modifies this
      ensures Valid() && Abs() == DoRead(old(Abs()))
      ensures currentReadBuffer == old(currentReadBuffer)
      ensures threads.reader ==
              if old(threads.reader) == UnlockPop || currentReadBuffer == None then Start else LoadState
    {
      hide Inv;
      ReaderLockHeld(Abs());
      ReadKeeps(Abs());
      threads := DoRead(Abs());
      flags := false;
    }

    method LoadWriteState() returns (written: bool)
      requires Valid() && threads.reader == LoadState
      modifies this
      ensures Valid() && Abs() == DoRead(old(Abs()))
      ensures threads.reader == if written then MoveItem else Start
      ensures written <==> NextWritten(old(Abs()))
    {
      hide Inv;
      ReaderInBounds(Abs());
      ReadKeeps(Abs());
      threads := DoRead(Abs());
      written := buffers[currentReadBuffer.value].writeState[readIndex];
    }

    /** Moves the line out and advances; `exhausted` when it was the buffer's last. */
    method TakeItem() returns (line: Line, exhausted: bool)
      requires Valid() && threads.reader == MoveItem
      modifies this
      ensures Valid() && Abs() == DoMoveItem(old(Abs()))
      ensures threads.out == old(threads.out) + [line]
      ensures threads.reader == if exhausted then LockPop else Start
    {
      hide Inv;
      MoveItemSlot(Abs());
      MoveItemKeeps(Abs());
      threads := DoMoveItem(Abs());
      var b := buffers[currentReadBuffer.value];
      line := b.items[readIndex].line;
      buffers := buffers[currentReadBuffer.value := b.(items := b.items[readIndex := MovedFrom])];
      exhausted := readIndex + 1 == size;
      readIndex := readIndex + 1;
      if exhausted {
        readIndex := 0;
        currentReadBuffer := None;
      }
    }

    method DequeueBuffer()
      requires Valid() && threads.reader == PopFront
      modifies this
      ensures Valid() && Abs() == DoRead(old(Abs()))
      ensures threads.reader == UnlockPop
    {
      hide Inv;
      ReaderLockHeld(Abs());
      ReadKeeps(Abs());
      threads := DoRead(Abs());
      queue := queue[1..];
    }

    // ------------------------------------------------------ uninterrupted calls

    /** push(): the line joins the end of the queue. */
    method Push(ghost p: nat, line: Line)
      requires Valid() && Quiescent(Abs()) && p < |threads.pcs|
      modifies this
      ensures Valid() && Quiescent(Abs())
      ensures |old(threads.out)| <= |old(threads.claims)| && |threads.out| <= |threads.claims|
      ensures Pending(Abs()) == Pending(old(Abs())) + [line]
    {
      hide Inv, DoStep, DoPush;
      QuiescentIsOpen(Abs());
      ghost var s := Abs();
      EnterPush(p, line);
      AloneStart(s, p, line);
      var ticket := FetchAddWriteIndex(p, line);
      ghost var s1 := Abs();
      var buffer := LoadCurrentWriteBuffer(p, line, ticket);
      AloneStep(s, s1, p, line);
      s1 := Abs();
      ConstructItem(p, line, ticket, buffer);
      AloneStep(s, s1, p, line);
      s1 := Abs();
      StoreWriteState(p, ticket, buffer);
      AloneStep(s, s1, p, line);
      s1 := Abs();
      var complete := FetchAddWriteCount(p, ticket, buffer);
      AloneStep(s, s1, p, line);
      if complete {
        SetupNextWriteBuffer(p, s, line);
      }
      OneMorePending(s, Abs(), p, line);
    }

    /** setup_next_write_buffer(), with nobody else holding the spin lock. */
    method SetupNextWriteBuffer(ghost p: nat, ghost s: State, ghost line: Line)
      requires Valid() && At(p, NewBuffer) && AlonePushing(s, Abs(), p, line)
      modifies this
      ensures Valid() && At(p, Idle) && AlonePushing(s, Abs(), p, line)
    {
      hide Inv, DoStep;
      ghost var s1 := Abs();
      var next := StoreNewWriteBuffer(p);
      AloneStep(s, s1, p, line);
      s1 := Abs();
      var acquired := TryLock(p, next);
      AloneStep(s, s1, p, line);
      s1 := Abs();
      EnqueueBuffer(p, next);
      AloneStep(s, s1, p, line);
      s1 := Abs();
      ResetWriteIndex(p);
      AloneStep(s, s1, p, line);
      s1 := Abs();
      Unlock(p);
      AloneStep(s, s1, p, line);
    }

    /** get_next_read_buffer(), with nobody else holding the spin lock. */
    method GetNextReadBuffer(ghost s: State)
      requires Valid() && threads.reader == LockFront && AloneReading(s, Abs())
      modifies this
      ensures Valid() && AloneReading(s, Abs())
      ensures currentReadBuffer == if old(queue) == [] then None else Some(old(queue)[0])
      ensures threads.reader == if currentReadBuffer == None then Start else LoadState
    {
      hide Inv, DoRead;
      AloneReadStep(s, Abs());
      var acquired := ReaderTryLock();
      AloneReadStep(s, Abs());
      LoadFront();
      AloneReadStep(s, Abs());
      ReaderUnlock();
    }

    /** Popping the exhausted buffer, with nobody else holding the spin lock. */
    method PopReadBuffer(ghost s: State)
      requires Valid() && threads.reader == LockPop && AloneReading(s, Abs())
      modifies this
      ensures Valid() && AloneReading(s, Abs()) && threads.reader == Start
    {
      hide Inv, DoRead;
      AloneReadStep(s, Abs());
      var acquired := ReaderTryLock();
      AloneReadStep(s, Abs());
      DequeueBuffer();
      AloneReadStep(s, Abs());
      ReaderUnlock();
    }

    /** try_pop(): the first waiting line, if there is one. */
    method TryPop() returns (ok: bool, line: Line)
      requires Valid() && Quiescent(Abs())
      modifies this
      ensures Valid() && Quiescent(Abs())
      ensures |old(threads.out)| <= |old(threads.claims)| && |threads.out| <= |threads.claims|
      ensures ok <==> Pending(old(Abs())) != []
      ensures Pending(old(Abs())) == if ok then [line] + Pending(Abs()) else Pending(Abs())
    {
      hide Inv, DoRead, DoMoveItem;
      QuiescentIsOpen(Abs());
      ghost var s := Abs();
      ok, line := false, "";
      AloneReadStep(s, s);
      var empty := CheckReadBuffer();
      if empty {
        GetNextReadBuffer(s);
        if currentReadBuffer == None {
          NothingToRead(s);
          BackToQuiescence(s, Abs(), []);
          return;
        }
      }
      WrittenIffPending(Abs());
      AloneReadStep(s, Abs());
      ok := LoadWriteState();
      if !ok {
        BackToQuiescence(s, Abs(), []);
        return;
      }
      ghost var s1 := Abs();
      var exhausted;
      line, exhausted := TakeItem();
      TakeStep(s, s1, line);
      if exhausted {
        PopReadBuffer(s.(out := s.out + [line]));
      }
      BackToQuiescence(s, Abs(), [line]);
    }
  }

  /** Since `s`, only producer `p` has moved, and it has claimed the ticket for `line`. */
  ghost predicate AlonePushing(s: State, s': State, p: nat, line: Line) {
    && p < |s.pcs| && |s'.pcs| == |s.pcs|
    && (forall q :: 0 <= q < |s.pcs| && q != p ==> s'.pcs[q] == Idle)
    && s'.reader == Start && s'.out == s.out
    && |s'.claims| == |s.claims| + 1 && s.claims <= s'.claims && s'.claims[|s.claims|].line == line
    && s'.lock == if HoldsLock(s'.pcs[p]) then Producer(p) else Nobody
  }

  predicate HoldsLock(pc: ProducerPc) {
    pc.PushBuffer? || pc.ResetIndex? || pc.UnlockQueue?
  }

  lemma AloneStart(s: State, p: nat, line: Line)
    requires Quiescent(s) && Sized(s) && s.writeIndex < s.size && p < |s.pcs|
    ensures DoPush(s, p, line).pcs[p] == TakeTicket(line)
    ensures AlonePushing(s, DoStep(DoPush(s, p, line), p), p, line)
  {
    hide Inv;
  }

  lemma AloneStep(s: State, s': State, p: nat, line: Line)
    requires Sized(s') && AlonePushing(s, s', p, line) && Inv(s')
    requires !s'.pcs[p].Idle? && !s'.pcs[p].TakeTicket? && !s'.pcs[p].SpinWait?
    ensures AlonePushing(s, DoStep(s', p), p, line)
  {
    hide Inv, LinesOf;
    StepFrame(s', p);
    StepLock(s', p);
  }

  predicate OthersUntouched(s: State, s': State, p: nat) {
    && |s'.pcs| == |s.pcs| && (forall q :: 0 <= q < |s.pcs| && q != p ==> s'.pcs[q] == s.pcs[q])
    && s'.reader == s.reader && s'.out == s.out && s'.claims == s.claims
  }

  /** A step of `p` other than drawing a ticket leaves everybody else, the claims and the output alone. */
  lemma StepFrame(s: State, p: nat)
    requires Sized(s) && p < |s.pcs| && !s.pcs[p].TakeTicket?
    ensures OthersUntouched(s, DoStep(s, p), p)
  {
    hide OthersUntouched;
    if s.pcs[p].LoadBuffer? || s.pcs[p].WriteItem? || s.pcs[p].StoreState? || s.pcs[p].CountItem? {
      SlotStepFrame(s, p);
    } else {
      InstallStepFrame(s, p);
    }
  }

  lemma SlotStepFrame(s: State, p: nat)
    requires Sized(s) && p < |s.pcs|
    requires s.pcs[p].LoadBuffer? || s.pcs[p].WriteItem? || s.pcs[p].StoreState? || s.pcs[p].CountItem?
    ensures OthersUntouched(s, DoStep(s, p), p)
  {
    hide DoNewBuffer, DoPushBuffer, DoUnlock, DoTakeTicket;
  }

  lemma InstallStepFrame(s: State, p: nat)
    requires Sized(s) && p < |s.pcs| && !s.pcs[p].TakeTicket?
    requires !s.pcs[p].LoadBuffer? && !s.pcs[p].WriteItem? && !s.pcs[p].StoreState? && !s.pcs[p].CountItem?
    ensures OthersUntouched(s, DoStep(s, p), p)
  {
    hide DoWriteItem, DoStoreState, DoCountItem, DoTakeTicket;
  }

  lemma StepLock(s: State, p: nat)
    requires Inv(s) && Sized(s) && p < |s.pcs| && s.lock == if HoldsLock(s.pcs[p]) then Producer(p) else Nobody
    ensures var s' := DoStep(s, p);
            s'.lock == if HoldsLock(s'.pcs[p]) then Producer(p) else Nobody
  {
    hide Inv;
    if s.pcs[p].WriteItem? || s.pcs[p].StoreState? || s.pcs[p].CountItem? {
      SlotInBounds(s, p);
    }
  }

  lemma OneMorePending(s: State, s': State, p: nat, line: Line)
    requires |s.out| <= |s.claims| && AlonePushing(s, s', p, line) && s'.pcs[p] == Idle && Inv(s')
    ensures Quiescent(s') && |s'.out| <= |s'.claims| && Pending(s') == Pending(s) + [line]
  {
    hide Inv;
    assert Lines(s'.claims) == Lines(s.claims) + [line];
  }

  /** Since `s`, only the consumer has moved, and the lines it delivered are those of `s`. */
  ghost predicate AloneReading(s: State, s': State) {
    && Sized(s') && s'.pcs == s.pcs && s'.out == s.out && s'.claims == s.claims
    && s'.lock == if s'.reader in {ReadFront, UnlockFront, PopFront, UnlockPop} then Consumer else Nobody
  }

  lemma AloneReadStep(s: State, s': State)
    requires AloneReading(s, s') && Inv(s') && s'.reader != MoveItem
    ensures AloneReading(s, DoRead(s'))
    ensures s'.reader != PopFront ==> DoRead(s').queue == s'.queue
  {
    hide Inv, AloneReading, DoRead;
    if s'.reader == LoadState {
      AloneLoad(s, s');
    } else if s'.reader in {ReadFront, UnlockFront, PopFront, UnlockPop} {
      AloneLocked(s, s');
    } else {
      AloneUnlocked(s, s');
    }
  }

  lemma AloneLoad(s: State, s': State)
    requires AloneReading(s, s') && Inv(s') && s'.reader == LoadState
    ensures AloneReading(s, DoRead(s')) && DoRead(s').queue == s'.queue
  {
    hide Inv, DoReadFront, DoMoveItem, DoPopFront, DoRelease;
    ReaderInBounds(s');
  }

  lemma AloneLocked(s: State, s': State)
    requires AloneReading(s, s') && Inv(s') && s'.reader in {ReadFront, UnlockFront, PopFront, UnlockPop}
    ensures AloneReading(s, DoRead(s')) && (s'.reader != PopFront ==> DoRead(s').queue == s'.queue)
  {
    hide Inv, DoLoadState, DoMoveItem;
    ReaderLockIfHeld(s');
  }

  lemma AloneUnlocked(s: State, s': State)
    requires AloneReading(s, s') && s'.reader in {Start, LockFront, LockPop}
    ensures AloneReading(s, DoRead(s')) && DoRead(s').queue == s'.queue
  {
    hide Inv, DoLoadState, DoReadFront, DoMoveItem, DoPopFront, DoRelease;
  }

  lemma ReaderLockIfHeld(s: State)
    requires Inv(s)
    ensures s.reader in {ReadFront, UnlockFront, PopFront, UnlockPop} ==> s.lock == Consumer
    ensures s.reader == PopFront ==> s.queue != []
  {
  }

  lemma TakeStep(s: State, s': State, line: Line)
    requires AloneReading(s, s') && Inv(s') && s'.reader == MoveItem && DoMoveItem(s').out == s'.out + [line]
    ensures AloneReading(s.(out := s.out + [line]), DoMoveItem(s'))
  {
    hide Inv;
    MoveItemSlot(s');
  }

  lemma BackToQuiescence(s: State, s': State, delivered: seq<Line>)
    requires Quiescent(s) && |s.out| <= |s.claims|
    requires AloneReading(s.(out := s.out + delivered), s') && s'.reader == Start && Inv(s')
    ensures Quiescent(s') && |s'.out| <= |s'.claims| && Pending(s) == delivered + Pending(s')
  {
    hide Inv;
    DeliveredLines(s');
    DropDelivered(Lines(s.claims), s.out, delivered);
  }

  lemma DropDelivered(lines: seq<Line>, out: seq<Line>, delivered: seq<Line>)
    requires out + delivered <= lines
    ensures lines[|out|..] == delivered + lines[|out + delivered|..]
  {
    var rest := lines[|out + delivered|..];
    assert lines == out + (delivered + rest);
  }

  lemma DeliveredLines(s: State)
    requires Inv(s)
    ensures |s.out| <= |s.claims| && s.out <= Lines(s.claims)
  {
  }

  /** The slot the consumer looks at is published. */
  predicate NextWritten(s: State) {
    && s.readBuffer.Some? && SlotExists(s, s.readBuffer.value, s.readIndex)
    && s.buffers[s.readBuffer.value].writeState[s.readIndex]
  }

  /** With no push under way the next slot is written exactly when a line is waiting. */
  lemma WrittenIffPending(s: State)
    requires Inv(s) && s.reader == LoadState && (forall p :: 0 <= p < |s.pcs| ==> s.pcs[p] == Idle)
    ensures NextWritten(s) <==> |s.out| < |s.claims|
  {
    hide LinesOf, PcsInv, PcInv, OrderInv, IndexInv, FinishedInv, AllSlots, Position;
    ReadSlot(s);
    assert SlotInv(s, s.popped, s.readIndex);
  }

  lemma NothingToRead(s: State)
    requires Quiescent(s) && s.queue == []
    ensures |s.out| == |s.claims|
  {
    hide LinesOf, PcsInv, PcInv, OrderInv, IndexInv, FinishedInv, SlotsInv, SlotInv, PhaseInv, AllSlots;
  }

  lemma ReaderLockHeld(s: State)
    requires Inv(s) && s.reader in {ReadFront, UnlockFront, PopFront, UnlockPop}
    ensures s.lock == Consumer && (s.reader == PopFront ==> s.queue != [])
  {
  }

  lemma ReaderInBounds(s: State)
    requires Inv(s) && s.reader == LoadState
    ensures s.readBuffer.Some? && SlotExists(s, s.readBuffer.value, s.readIndex)
  {
    ReadSlot(s);
  }

  lemma SlotInBounds(s: State, p: nat)
    requires Inv(s) && p < |s.pcs|
    requires s.pcs[p].WriteItem? || s.pcs[p].StoreState? || s.pcs[p].CountItem?
    ensures SlotExists(s, s.pcs[p].buffer, s.pcs[p].ticket)
  {
    PcOf(s, p);
  }

  lemma LockHeld(s: State, p: nat)
    requires Inv(s) && p < |s.pcs|
    requires s.pcs[p].PushBuffer? || s.pcs[p].ResetIndex? || s.pcs[p].UnlockQueue?
    ensures s.lock == Producer(p)
  {
    PcOf(s, p);
  }
}
