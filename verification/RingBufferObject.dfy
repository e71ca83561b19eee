// The ring buffer as the C++ class: an array of items updated in place, one method
// per access to shared memory, and push / try_pop composed of them.
module RingBufferObject {
  import opened Machine
  import opened RingBuffer
  import opened RingBufferInvariant
  import opened Threads

  class LogRing {
    const size: nat
    const ring: array<Item>
    var writeIndex: nat
    var readIndex: nat
    // where the threads are, and the history
    ghost var threads: State

    ghost function Abs(): State
      reads this, ring
    {
      threads.(size := size, ring := ring[..], writeIndex := writeIndex, readIndex := readIndex)
    }

    ghost predicate Valid()
      reads this, ring
    {
      Inv(Abs()) && Sized(Abs())
    }

    ghost predicate At(p: nat, pc: ProducerPc)
      reads this
    {
      p < |threads.pcs| && threads.pcs[p] == pc
    }

    constructor (size: nat, ghost producers: nat)
      requires size > 0
      ensures Valid() && Abs() == Init(size, producers) && fresh(ring)
    {
      this.size := size;
      ring := new Item[size](_ => Item(Nobody, false, None));
      writeIndex := 0;
      readIndex := 0;
      threads := Init(size, producers);
      new;
      InitInv(size, producers);
      assert ring[..] == Init(size, producers).ring;
    }

    // ------------------------------------------------- accesses of a producer

    ghost method EnterPush(p: nat, line: Line)
      requires Valid() && p < |threads.pcs|
      modifies this`threads
      ensures Valid() && Abs() == DoPush(old(Abs()), p, line)
      ensures old(At(p, Idle)) ==> At(p, TakeTicket(line))
    {
      hide Inv;
      PushKeeps(Abs(), p, line);
      threads := DoPush(Abs(), p, line);
    }

    method FetchAddWriteIndex(p: nat, ghost line: Line) returns (index: nat)
      requires Valid() && At(p, TakeTicket(line))
      modifies this`threads, this`writeIndex
      ensures Valid() && Abs() == DoStep(old(Abs()), p)
      ensures At(p, LockItem(line, index)) && index < size
      ensures index == old(writeIndex) % size && writeIndex == (old(writeIndex) + 1) % TWO_64
    {
      hide Inv;
      StepKeeps(Abs(), p);
      threads := DoStep(Abs(), p);
      index := writeIndex % size;
      writeIndex := (writeIndex + 1) % TWO_64;
    }

    /** One test_and_set of the item's spin lock. */
    method TryLock(p: nat, ghost line: Line, i: nat) returns (acquired: bool)
      requires Valid() && At(p, LockItem(line, i)) && i < size
      modifies this`threads, ring
      ensures Valid() && Abs() == DoStep(old(Abs()), p)
      ensures acquired <==> old(ring[i].flag) == Nobody
      ensures acquired ==> At(p, StoreLine(line, i)) && ring[..] == old(ring[..][i := ring[i].(flag := Producer(p))])
    {
      hide Inv;
      StepKeeps(Abs(), p);
      threads := DoStep(Abs(), p);
      acquired := ring[i].flag == Nobody;
      if acquired {
        ring[i] := ring[i].(flag := Producer(p));
      }
    }

    method StoreItemLine(p: nat, line: Line, i: nat)
      requires Valid() && At(p, StoreLine(line, i))
      modifies this`threads, ring
      ensures Valid() && Abs() == DoStep(old(Abs()), p)
      ensures At(p, SetWritten(i)) && i < size
      ensures ring[..] == old(ring[..][i := ring[i].(line := Some(line))])
    {
      hide Inv;
      OwnItem(Abs(), p, i);
      StepKeeps(Abs(), p);
      threads := DoStep(Abs(), p);
      ring[i] := ring[i].(line := Some(line));
    }

    method MarkWritten(p: nat, i: nat)
      requires Valid() && At(p, SetWritten(i))
      modifies this`threads, ring
      ensures Valid() && Abs() == DoStep(old(Abs()), p)
      ensures At(p, UnlockItem(i)) && i < size
      ensures ring[..] == old(ring[..][i := ring[i].(written := true)])
    {
      hide Inv;
      OwnItem(Abs(), p, i);
      StepKeeps(Abs(), p);
      threads := DoStep(Abs(), p);
      ring[i] := ring[i].(written := true);
    }

    method Unlock(p: nat, i: nat)
      requires Valid() && At(p, UnlockItem(i))
      modifies this`threads, ring
      ensures Valid() && Abs() == DoStep(old(Abs()), p)
      ensures At(p, Idle) && i < size
      ensures ring[..] == old(ring[..][i := ring[i].(flag := Nobody)])
    {
      hide Inv;
      OwnItem(Abs(), p, i);
      StepKeeps(Abs(), p);
      threads := DoStep(Abs(), p);
      ring[i] := ring[i].(flag := Nobody);
    }

    // ----------------------------------------------- accesses of the consumer

    method TryLockRead() returns (acquired: bool)
      requires Valid() && threads.reader == Start
      modifies this`threads, ring
      ensures Valid() && Abs() == DoRead(old(Abs()))
      ensures acquired <==> old(ring[readIndex % size].flag) == Nobody
      ensures acquired ==> threads.reader == TestWritten(readIndex % size)
      ensures acquired ==> ring[..] == old(ring[..][readIndex % size := ring[readIndex % size].(flag := Consumer)])
    {
      hide Inv;
      ReadKeeps(Abs());
      threads := DoRead(Abs());
      var i := readIndex % size;
      acquired := ring[i].flag == Nobody;
      if acquired {
        ring[i] := ring[i].(flag := Consumer);
      }
    }

    method TestItem(i: nat) returns (written: bool)
      requires Valid() && threads.reader == TestWritten(i)
      modifies this`threads
      ensures Valid() && Abs() == DoRead(old(Abs()))
      ensures i < size && written == ring[i].written
      ensures threads.reader == if written then MoveLine(i) else ReleaseItem(i)
    {
      hide Inv;
      OwnReadItem(Abs());
      ReadKeeps(Abs());
      threads := DoRead(Abs());
      written := ring[i].written;
    }

    method MoveItemLine(i: nat) returns (line: Line)
      requires Valid() && threads.reader == MoveLine(i)
      modifies this`threads, ring
      ensures Valid() && Abs() == DoRead(old(Abs()))
      ensures threads.reader == ClearWritten(i) && threads.out == old(threads.out) + [line]
      ensures i < size && old(ring[i].line) == Some(line) && ring[..] == old(ring[..][i := ring[i].(line := None)])
    {
      hide Inv;
      OwnReadItem(Abs());
      ReadKeeps(Abs());
      threads := DoRead(Abs());
      line := ring[i].line.value;
      ring[i] := ring[i].(line := None);
    }

    method ClearItem(i: nat)
      requires Valid() && threads.reader == ClearWritten(i)
      modifies this`threads, ring
      ensures Valid() && Abs() == DoRead(old(Abs()))
      ensures threads.reader == AdvanceIndex(i) && i < size
      ensures ring[..] == old(ring[..][i := ring[i].(written := false)])
    {
      hide Inv;
      OwnReadItem(Abs());
      ReadKeeps(Abs());
      threads := DoRead(Abs());
      ring[i] := ring[i].(written := false);
    }

    method AdvanceReadIndex(i: nat)
      requires Valid() && threads.reader == AdvanceIndex(i)
      modifies this`threads, this`readIndex
      ensures Valid() && Abs() == DoRead(old(Abs()))
      ensures threads.reader == ReleaseItem(i) && readIndex == (old(readIndex) + 1) % TWO_32
    {
      hide Inv;
      ReadKeeps(Abs());
      threads := DoRead(Abs());
      readIndex := (readIndex + 1) % TWO_32;
    }

    method Release(i: nat)
      requires Valid() && threads.reader == ReleaseItem(i)
      modifies this`threads, ring
      ensures Valid() && Abs() == DoRead(old(Abs()))
      ensures threads.reader == Start && i < size
      ensures ring[..] == old(ring[..][i := ring[i].(flag := Nobody)])
    {
      hide Inv;
      OwnReadItem(Abs());
      ReadKeeps(Abs());
      threads := DoRead(Abs());
      ring[i] := ring[i].(flag := Nobody);
    }

    // ------------------------------------------------------ uninterrupted calls

    /** push() with the item's lock free: the line replaces whatever the item held. */
    method Push(p: nat, line: Line)
      requires Valid() && At(p, Idle) && ring[writeIndex % size].flag == Nobody
      modifies this, ring
      ensures Valid() && At(p, Idle)
      ensures ring[..] == old(ring[..][writeIndex % size := Item(Nobody, true, Some(line))])
      ensures writeIndex == (old(writeIndex) + 1) % TWO_64 && readIndex == old(readIndex)
    {
      hide Inv, DoStep, DoPush;
      EnterPush(p, line);
      var i := FetchAddWriteIndex(p, line);
      var acquired := TryLock(p, line, i);
      StoreItemLine(p, line, i);
      MarkWritten(p, i);
      Unlock(p, i);
    }

    /** try_pop() with the item's lock free: delivers the item's line, if it is marked written. */
    method TryPop() returns (ok: bool, line: Line)
      requires Valid() && threads.reader == Start && ring[readIndex % size].flag == Nobody
      modifies this, ring
      ensures Valid() && threads.reader == Start && writeIndex == old(writeIndex)
      ensures ok == old(ring[readIndex % size].written)
      ensures ok ==> old(ring[readIndex % size].line) == Some(line)
                     && ring[..] == old(ring[..][readIndex % size := Item(Nobody, false, None)])
                     && readIndex == (old(readIndex) + 1) % TWO_32
      ensures !ok ==> ring[..] == old(ring[..]) && readIndex == old(readIndex)
    {
      hide Inv, DoRead;
      line := "";
      var i := readIndex % size;
      var acquired := TryLockRead();
      ok := TestItem(i);
      if ok {
        line := MoveItemLine(i);
        ClearItem(i);
        AdvanceReadIndex(i);
      }
      Release(i);
    }
  }
}
