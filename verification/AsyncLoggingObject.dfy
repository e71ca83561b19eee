// The asynchronous logger as the C++ class: methods of the front ends and the pieces
// of threadFunc between two accesses to shared state.
module AsyncLoggingObject {
  import opened Sequences
  import opened LogStream
  import opened AsyncLogging
  import opened AsyncLoggingInvariant
  import opened BufferPool

  class AsyncLogger {
    // shared, under mutex_
    var currentBuffer: FixedBuffer?
    var nextBuffer: FixedBuffer?
    var buffers: seq<FixedBuffer>
    var running: bool
    // threadFunc's locals
    var newBuffer1: FixedBuffer?
    var newBuffer2: FixedBuffer?
    var buffersToWrite: seq<FixedBuffer>
    var output: string
    // where the back end is, the history, and the memory this logger owns
    ghost var pc: BackPc
    ghost var lines: seq<string>
    ghost var rounds: seq<Round>
    ghost var repr: set<object>

    ghost function Pointers(): Hands
      reads this
    {
      Hands(currentBuffer, nextBuffer, buffers, newBuffer1, newBuffer2, buffersToWrite)
    }

    ghost predicate OwnsBuffers()
      reads this, repr
    {
      this !in repr && Sound(Pointers(), repr)
    }

    ghost function Abs(): State
      reads this, repr
      requires OwnsBuffers()
    {
      var p := Contents(Pointers(), repr);
      State(p.current, p.next, p.buffers, running, pc, p.spare1, p.spare2, p.toWrite, output, false, lines, rounds)
    }

    /** Every buffer has one owner and no memory in common with another, and the protocol's invariant holds. */
    ghost predicate Valid()
      reads this, repr
    {
      OwnsBuffers() && Inv(Abs())
    }

    constructor ()
      ensures Valid() && fresh(repr) && Abs() == INIT
    {
      hide Inv, FixedBuffer.Valid, Sound, Contents, View;
      var b1 := NewBuffer();
      var b2 := NewBuffer();
      var b3 := NewBuffer();
      var b4 := NewBuffer();
      currentBuffer, nextBuffer, newBuffer1, newBuffer2 := b1, b2, b3, b4;
      buffers, buffersToWrite, running, output := [], [], true, "";
      pc, lines, rounds := Top, [], [];
      repr := {b1, b1.data, b2, b2.data, b3, b3.data, b4, b4.data};
      InitInv();
      new;
      FourBuffers(b1, b2, b3, b4);
    }

    /** append when the line does not fit: a filled buffer goes to buffers_. */
    method Roll()
      requires OwnsBuffers() && currentBuffer != null
      modifies this`currentBuffer, this`nextBuffer, this`buffers, this`repr
      ensures OwnsBuffers() && fresh(repr - old(repr)) && currentBuffer != null
      ensures var p := old(Contents(Pointers(), repr));
              Contents(Pointers(), repr) ==
              p.(buffers := p.buffers + [p.current], current := if p.next.Owns? then p.next else EMPTY, next := Null)
    {
      hide Sound, Contents, View, FixedBuffer.Valid;
      ghost var h := Pointers();
      Nulls(h, repr);
      buffers := buffers + [currentBuffer];
      if nextBuffer != null {
        RollToNext(h, repr);
        currentBuffer := nextBuffer;
        nextBuffer := null;
      } else {
        currentBuffer := NewBuffer();
        RollToNew(h, repr, currentBuffer);
        repr := repr + {currentBuffer, currentBuffer.data};
      }
      assert Pointers() == Rolled(h, currentBuffer);
    }

    method Append(line: string)
      requires Valid()
      modifies this, repr
      ensures Valid() && fresh(repr - old(repr))
      ensures Abs() == DoAppend(old(Abs()), line) && lines == old(lines) + [line]
    {
      hide Inv, Sound, Contents, AppendTo, FixedBuffer.Valid;
      AppendKeeps(Abs(), line);
      Facts(Abs());
      Nulls(Pointers(), repr);
      Room(Pointers(), repr);
      if currentBuffer.Avail() <= |line| {
        Roll();
        Room(Pointers(), repr);
      }
      AppendText(currentBuffer, line, Pointers(), repr);
      lines := lines + [line];
    }

    method Stop()
      requires Valid()
      modifies this`running
      ensures Valid() && Abs() == old(Abs()).(running := false)
    {
      hide Inv, Sound, Contents;
      StopKeeps(Abs());
      running := false;
    }

    /** The head of threadFunc's loop, with its asserts. */
    method BeginRound() returns (goOn: bool)
      requires Valid() && pc == Top
      modifies this`pc
      ensures Valid() && goOn == running && Abs() == DoBack(old(Abs()), "")
    {
      hide Inv, SoleOwners, Footprint, View, FixedBuffer.Valid;
      BackKeeps(Abs(), "");
      Facts(Abs());
      goOn := running;
      if goOn {
        SparesEmpty(Pointers(), repr);
        assert newBuffer1 != null && newBuffer1.cur == 0;
        assert newBuffer2 != null && newBuffer2.cur == 0;
        assert |Views(buffersToWrite)| == 0;
        assert buffersToWrite == [];
        pc := BackPc.Swap;
      } else {
        pc := Done;
      }
    }

    /** The moves of the critical section. */
    method SwapPointers()
      requires OwnsBuffers() && currentBuffer != null
      modifies this`currentBuffer, this`nextBuffer, this`buffers, this`newBuffer1, this`newBuffer2, this`buffersToWrite
      ensures OwnsBuffers()
      ensures var p := old(Contents(Pointers(), repr));
              Contents(Pointers(), repr) ==
              Pool(p.spare1, if p.next.Null? then p.spare2 else p.next, p.toWrite,
                   Null, if p.next.Null? then Null else p.spare2, p.buffers + [p.current])
    {
      hide Sound, Contents;
      ghost var h := Pointers();
      SwapMoves(h, repr);
      buffers := buffers + [currentBuffer];
      currentBuffer := newBuffer1;
      newBuffer1 := null;
      buffersToWrite, buffers := buffers, buffersToWrite;
      if nextBuffer == null {
        nextBuffer := newBuffer2;
        newBuffer2 := null;
      }
      assert Pointers() == Swapped(h);
    }

    /** The critical section. */
    method SwapBuffers()
      requires Valid() && pc == BackPc.Swap
      modifies this
      ensures Valid() && Abs() == DoBack(old(Abs()), "")
    {
      hide Inv, Sound, Contents;
      BackKeeps(Abs(), "");
      Facts(Abs());
      Nulls(Pointers(), repr);
      SwapPointers();
      pc, rounds := Trim, rounds + [Round(Contents(Pointers(), repr).toWrite, "")];
    }

    /** buffersToWrite.erase or resize: the buffers from the n-th on are freed. */
    method DropFrom(n: nat)
      requires OwnsBuffers() && n <= |buffersToWrite|
      modifies this`buffersToWrite
      ensures OwnsBuffers() && buffersToWrite == old(buffersToWrite[..n])
      ensures var p := old(Contents(Pointers(), repr));
              Contents(Pointers(), repr) == p.(toWrite := Prefix(p.toWrite, n))
    {
      hide Sound, Contents;
      ghost var h := Pointers();
      TruncateMoves(h, repr, n);
      buffersToWrite := buffersToWrite[..n];
      assert Pointers() == Truncated(h, n);
    }

    /** The notice about dropped buffers, if there are too many. */
    method TrimBuffers(stamp: string)
      requires Valid() && pc == Trim
      modifies this
      ensures Valid() && Abs() == DoBack(old(Abs()), stamp)
    {
      hide Inv, Sound, Contents, Notice;
      BackKeeps(Abs(), stamp);
      TrimFacts(Abs());
      Nulls(Pointers(), repr);
      assert buffersToWrite != [];
      rounds := rounds[|rounds| - 1 := rounds[|rounds| - 1].(stamp := stamp)];
      if |buffersToWrite| > MAX_BUFFERS {
        output := output + Notice(stamp, |buffersToWrite| - 2);
        DropFrom(2);
      }
      pc := Write(0);
    }

    /** output.append of the next buffer to write */
    method WriteBuffer(i: nat)
      requires Valid() && pc == Write(i) && i < |buffersToWrite|
      modifies this`output, this`pc
      ensures Valid() && Abs() == DoBack(old(Abs()), "") && pc == Write(i + 1)
    {
      hide Inv, Sound, Contents;
      BackKeeps(Abs(), "");
      Nulls(Pointers(), repr);
      TextOf(Pointers(), repr, i);
      var b := buffersToWrite[i];
      output := output + b.data[..b.cur];
      pc := Write(i + 1);
    }

    /** The loop over the buffers to write, then resize(2). */
    method WriteBuffers()
      requires Valid() && pc == Write(0)
      modifies this`output, this`pc, this`buffersToWrite
      ensures Valid() && Abs() == BackSteps(old(Abs()), |old(buffersToWrite)| + 1) && pc == Refill1
    {
      hide Inv, Sound, Contents, DoBack;
      ghost var s := Abs();
      var i := 0;
      while i < |buffersToWrite|
        invariant i <= |buffersToWrite| && buffersToWrite == old(buffersToWrite)
        invariant Valid() && Abs() == BackSteps(s, i) && pc == Write(i)
      {
        WriteBuffer(i);
        i := i + 1;
      }
      Resize();
    }

    method Resize()
      requires Valid() && pc == Write(|buffersToWrite|)
      modifies this`pc, this`buffersToWrite
      ensures Valid() && Abs() == DoBack(old(Abs()), "") && pc == Refill1
    {
      hide Inv, Sound, Contents;
      BackKeeps(Abs(), "");
      Nulls(Pointers(), repr);
      if |buffersToWrite| > 2 {
        DropFrom(2);
      }
      pc := Refill1;
    }

    /** The end of a round: both spares are refilled from the buffers written. */
    method Recycle()
      requires Valid() && pc == Refill1
      modifies this, repr
      ensures Valid() && repr == old(repr) && Abs() == BackSteps(old(Abs()), 2) && pc == Top
    {
      hide Inv, Sound, Contents, DoBack;
      ghost var s := Abs();
      RefillFirst();
      assert Abs() == BackSteps(s, 1);
      RefillSecond();
    }

    /** A spare takes the last of the buffers written, and is emptied. */
    method Refill(first: bool)
      requires OwnsBuffers() && buffersToWrite != [] && (if first then newBuffer1 == null else newBuffer2 == null)
      modifies this`newBuffer1, this`newBuffer2, this`buffersToWrite, repr
      ensures OwnsBuffers()
      ensures var p := old(Contents(Pointers(), repr));
              && |p.toWrite| > 0
              && var p1 := p.(toWrite := p.toWrite[..|p.toWrite| - 1]);
                 Contents(Pointers(), repr) == if first then p1.(spare1 := EMPTY) else p1.(spare2 := EMPTY)
    {
      hide Sound, Contents, FixedBuffer.Valid;
      ghost var h := Pointers();
      Nulls(h, repr);
      RefillMoves(h, repr, first);
      var b := buffersToWrite[|buffersToWrite| - 1];
      buffersToWrite := buffersToWrite[..|buffersToWrite| - 1];
      if first {
        newBuffer1 := b;
      } else {
        newBuffer2 := b;
      }
      assert Pointers() == Refilled(h, first);
      SpareInRepr(Pointers(), repr, b);
      Clear(b, Pointers(), repr);
    }

    method RefillFirst()
      requires Valid() && pc == Refill1
      modifies this, repr
      ensures Valid() && repr == old(repr) && Abs() == DoBack(old(Abs()), "") && pc == Refill2
    {
      hide Inv, Sound, Contents, FixedBuffer.Valid;
      BackKeeps(Abs(), "");
      Facts(Abs());
      Nulls(Pointers(), repr);
      if newBuffer1 == null {
        assert buffersToWrite != [];
        Refill(true);
      }
      pc := Refill2;
    }

    method RefillSecond()
      requires Valid() && pc == Refill2
      modifies this, repr
      ensures Valid() && repr == old(repr) && Abs() == DoBack(old(Abs()), "") && pc == Top
    {
      hide Inv, Sound, Contents, FixedBuffer.Valid;
      BackKeeps(Abs(), "");
      Facts(Abs());
      Nulls(Pointers(), repr);
      if newBuffer2 == null {
        assert buffersToWrite != [];
        Refill(false);
      }
      DropFrom(0);
      pc := Top;
    }
  }

  function BackSteps(s: State, n: nat): State {
    if n == 0 then s else DoBack(BackSteps(s, n - 1), "")
  }

  /** What the invariant says of the pointers a step is about to use. */
  lemma Facts(s: State)
    requires Inv(s)
    ensures s.current.Owns? && (s.next == EMPTY || s.next.Null?)
    ensures s.pc == Top || s.pc == BackPc.Swap ==> s.spare1 == EMPTY && s.spare2 == EMPTY && s.toWrite == []
    ensures s.pc == Refill1 ==> s.toWrite != [] && s.spare1.Null? && s.toWrite[|s.toWrite| - 1].Owns?
    ensures s.pc == Refill2 ==> s.spare1 == EMPTY && (s.spare2.Null? ==> s.toWrite != [] && s.toWrite[|s.toWrite| - 1].Owns?)
    ensures s.pc == Refill2 && s.spare2.Owns? ==> s.spare2 == EMPTY
  {
    hide FrontInv, BackInv, Flatten;
  }

  lemma TrimFacts(s: State)
    requires Inv(s) && s.pc == Trim
    ensures s.toWrite != [] && s.rounds != []
  {
    hide WholeInv, FrontInv, Output;
  }
}
