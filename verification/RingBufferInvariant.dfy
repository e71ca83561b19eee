// The ring buffer over every interleaving: mutual exclusion on items and
// conservation of lines.
module RingBufferInvariant {
  import opened RingBuffer
  import opened Threads

  /** The item whose critical section a producer is in. */
  function ItemOf(pc: ProducerPc): Option<nat> {
    if pc.StoreLine? || pc.SetWritten? || pc.UnlockItem? then Some(pc.index) else None
  }

  function ReaderItemOf(pc: ReaderPc): Option<nat> {
    if pc.Start? then None else Some(pc.index)
  }

  /** An item's lock is held exactly by the thread inside its critical section. */
  predicate LockInv(s: State)
    requires Sized(s)
  {
    && (forall p :: 0 <= p < |s.pcs| && ItemOf(s.pcs[p]).Some? ==>
          Owns(s, ItemOf(s.pcs[p]).value, Producer(p)))
    && (ReaderItemOf(s.reader).Some? ==> Owns(s, ReaderItemOf(s.reader).value, Consumer))
    && (forall i :: 0 <= i < s.size ==> HolderInside(s, i))
  }

  predicate HolderInside(s: State, i: nat)
    requires Sized(s) && i < s.size
  {
    match s.ring[i].flag
    case Nobody => true
    case Producer(p) => p < |s.pcs| && ItemOf(s.pcs[p]) == Some(i)
    case Consumer => ReaderItemOf(s.reader) == Some(i)
  }

  predicate BoundsInv(s: State)
    requires Sized(s)
  {
    && (forall p :: 0 <= p < |s.pcs| && s.pcs[p].LockItem? ==> s.pcs[p].index < s.size)
    && (!s.reader.Start? && !s.reader.ReleaseItem? ==> s.reader.index == s.readIndex % s.size)
  }

  /** The mark agrees with the presence of a line, except between the two stores of a critical section. */
  predicate MarkInv(s: State, i: nat)
    requires Sized(s) && i < s.size
  {
    var item := s.ring[i];
    if item.flag.Producer? && item.flag.id < |s.pcs| && s.pcs[item.flag.id] == SetWritten(i) then item.line.Some?
    else if s.reader == ClearWritten(i) then item.line == None && item.written
    else item.written <==> item.line.Some?
  }

  predicate MarksInv(s: State)
    requires Sized(s)
  {
    && (forall i :: 0 <= i < s.size ==> MarkInv(s, i))
    && (s.reader.MoveLine? && s.reader.index < s.size ==> s.ring[s.reader.index].written)
  }

  function LineOf(item: Item): multiset<Line> {
    if item.line.Some? then multiset{item.line.value} else multiset{}
  }

  /** The lines sitting in the ring. */
  function Held(ring: seq<Item>): multiset<Line> {
    if ring == [] then multiset{} else Held(ring[..|ring| - 1]) + LineOf(ring[|ring| - 1])
  }

  function Storing(s: State): set<nat> {
    set p: nat | p < |s.pcs| && s.pcs[p].SetWritten?
  }

  predicate ConservationInv(s: State) {
    && multiset(s.stored) == multiset(s.out) + multiset(s.overwritten) + Held(s.ring)
    && |s.stored| == s.completed + |Storing(s)|
  }

  predicate Inv(s: State) {
    !s.fault && Sized(s) && LockInv(s) && BoundsInv(s) && MarksInv(s) && ConservationInv(s)
  }

  // ------------------------------------------------------------------- the ring

  lemma {:induction false} HeldUpdate(ring: seq<Item>, i: nat, item: Item)
    requires i < |ring|
    ensures Held(ring[i := item]) + LineOf(ring[i]) == Held(ring) + LineOf(item)
    decreases |ring|
  {
    hide LineOf;
    var n := |ring| - 1;
    var ring' := ring[i := item];
    if i == n {
      assert ring'[..n] == ring[..n];
    } else {
      HeldUpdate(ring[..n], i, item);
      assert ring'[..n] == ring[..n][i := item];
      SameSum(Held(ring'[..n]), Held(ring[..n]), LineOf(ring[i]), LineOf(item), LineOf(ring[n]));
    }
  }

  lemma SameSum<T>(a: multiset<T>, b: multiset<T>, x: multiset<T>, y: multiset<T>, z: multiset<T>)
    requires a + x == b + y
    ensures (a + z) + x == (b + z) + y
  {
    assert (a + z) + x == (a + x) + z;
    assert (b + z) + y == (b + y) + z;
  }

  lemma {:induction false} HeldEmpty(ring: seq<Item>)
    requires forall i :: 0 <= i < |ring| ==> ring[i].line == None
    ensures Held(ring) == multiset{}
    decreases |ring|
  {
    if ring != [] {
      HeldEmpty(ring[..|ring| - 1]);
    }
  }

  lemma InitInv(size: nat, producers: nat)
    requires size > 0
    ensures Inv(Init(size, producers))
  {
    HeldEmpty(Init(size, producers).ring);
    assert Storing(Init(size, producers)) == {};
  }

  // -------------------------------------------------------------------- producers

  /** A step of producer `p` touches at most item `i`. */
  predicate ProducerMove(s: State, s': State, p: nat, i: nat)
    requires Sized(s)
  {
    && Sized(s') && s'.size == s.size && p < |s.pcs| && |s'.pcs| == |s.pcs| && i < s.size
    && s'.pcs == s.pcs[p := s'.pcs[p]] && s'.ring == s.ring[i := s'.ring[i]]
    && s'.reader == s.reader && s'.readIndex == s.readIndex
    && (s'.pcs[p].LockItem? ==> s'.pcs[p].index < s.size)
  }

  /** What the lock allows: enter a free item, stay inside, or leave and free it. */
  predicate LockStep(s: State, s': State, p: nat, i: nat)
    requires Sized(s) && ProducerMove(s, s', p, i)
  {
    var before, after := ItemOf(s.pcs[p]), ItemOf(s'.pcs[p]);
    || (before == after && s'.ring[i].flag == s.ring[i].flag && (before == None || before == Some(i)))
    || (before == None && after == Some(i) && s.ring[i].flag == Nobody && s'.ring[i].flag == Producer(p))
    || (before == Some(i) && after == None && s'.ring[i].flag == Nobody)
  }

  lemma LockStepKeeps(s: State, s': State, p: nat, i: nat)
    requires Sized(s) && LockInv(s) && BoundsInv(s) && ProducerMove(s, s', p, i) && LockStep(s, s', p, i)
    ensures LockInv(s') && BoundsInv(s')
  {
    forall j | 0 <= j < s.size ensures HolderInside(s', j) {
      assert HolderInside(s, j);
    }
  }

  lemma MarkStepKeeps(s: State, s': State, p: nat, i: nat)
    requires Sized(s) && LockInv(s) && BoundsInv(s) && MarksInv(s) && ProducerMove(s, s', p, i) && LockStep(s, s', p, i)
    requires MarkInv(s', i)
    requires s'.ring[i] == s.ring[i].(flag := s'.ring[i].flag) || ItemOf(s.pcs[p]) == Some(i)
    ensures MarksInv(s')
  {
    forall j | 0 <= j < s.size ensures MarkInv(s', j) {
      assert MarkInv(s, j) && HolderInside(s, j);
    }
  }

  /** Steps that move no line. */
  lemma NothingMoved(s: State, s': State, i: nat)
    requires Sized(s) && ConservationInv(s) && i < s.size && |s'.ring| == s.size && s'.ring == s.ring[i := s'.ring[i]]
    requires s'.ring[i].line == s.ring[i].line
    requires s'.stored == s.stored && s'.out == s.out && s'.overwritten == s.overwritten
    requires s'.completed + |Storing(s')| == s.completed + |Storing(s)|
    ensures ConservationInv(s')
  {
    hide Held;
    HeldUpdate(s.ring, i, s'.ring[i]);
    assert LineOf(s'.ring[i]) == LineOf(s.ring[i]);
    Cancel(Held(s'.ring), Held(s.ring), LineOf(s.ring[i]));
  }

  lemma Cancel<T>(a: multiset<T>, b: multiset<T>, x: multiset<T>)
    requires a + x == b + x
    ensures a == b
  {
    assert a == (a + x) - x;
    assert b == (b + x) - x;
  }

  /** Steps of a producer that touch no item. */
  lemma DetachedKeeps(s: State, s': State, p: nat)
    requires Inv(s) && Sized(s') && s'.size == s.size && p < |s.pcs| && |s'.pcs| == |s.pcs|
    requires s'.pcs == s.pcs[p := s'.pcs[p]] && s'.ring == s.ring && s'.reader == s.reader && s'.readIndex == s.readIndex
    requires s'.stored == s.stored && s'.out == s.out && s'.overwritten == s.overwritten
    requires s'.completed == s.completed && !s'.fault
    requires ItemOf(s.pcs[p]) == None && ItemOf(s'.pcs[p]) == None
    requires s'.pcs[p].LockItem? ==> s'.pcs[p].index < s.size
    ensures Inv(s')
  {
    hide Held, LockInv, MarksInv;
    LockStepKeeps(s, s', p, 0);
    assert MarkInv(s, 0) && HolderInside(s, 0) by { InvAt(s, 0); }
    MarkStepKeeps(s, s', p, 0);
    assert Storing(s') == Storing(s);
  }

  lemma InvAt(s: State, i: nat)
    requires Inv(s) && i < s.size
    ensures MarkInv(s, i) && HolderInside(s, i)
  {
  }

  lemma OwnItem(s: State, p: nat, i: nat)
    requires Inv(s) && p < |s.pcs| && ItemOf(s.pcs[p]) == Some(i)
    ensures Owns(s, i, Producer(p)) && i < s.size && MarkInv(s, i) && ReaderItemOf(s.reader) != Some(i)
  {
    assert Owns(s, i, Producer(p));
  }

  lemma LockItemKeeps(s: State, p: nat, line: Line, i: nat)
    requires Inv(s) && p < |s.pcs| && s.pcs[p] == LockItem(line, i)
    ensures Inv(DoLockItem(s, p, line, i))
  {
    hide Held;
    var s' := DoLockItem(s, p, line, i);
    InvAt(s, i);
    LockStepKeeps(s, s', p, i);
    MarkStepKeeps(s, s', p, i);
    assert Storing(s') == Storing(s);
    NothingMoved(s, s', i);
  }

  lemma StoreConserves(s: State, p: nat, line: Line, i: nat)
    requires Inv(s) && p < |s.pcs| && s.pcs[p] == StoreLine(line, i) && Owns(s, i, Producer(p))
    ensures ConservationInv(DoStoreLine(s, p, line, i))
  {
    hide Held, LockInv, MarksInv, BoundsInv;
    var s' := DoStoreLine(s, p, line, i);
    HeldUpdate(s.ring, i, s'.ring[i]);
    assert Storing(s') == Storing(s) + {p};
    var lost, now := LineOf(s.ring[i]), multiset{line};
    assert multiset(s'.overwritten) == multiset(s.overwritten) + lost;
    assert Held(s'.ring) + lost == Held(s.ring) + now;
    Replaced(multiset(s.out), multiset(s.overwritten), Held(s.ring), Held(s'.ring), lost, now);
  }

  lemma Replaced<T>(out: multiset<T>, over: multiset<T>, held: multiset<T>, held': multiset<T>, lost: multiset<T>, now: multiset<T>)
    requires held' + lost == held + now
    ensures out + over + held + now == out + (over + lost) + held'
  {
    assert out + (over + lost) + held' == out + over + (held' + lost);
    assert out + over + held + now == out + over + (held + now);
  }

  lemma StoreLineKeeps(s: State, p: nat, line: Line, i: nat)
    requires Inv(s) && p < |s.pcs| && s.pcs[p] == StoreLine(line, i)
    ensures Inv(DoStoreLine(s, p, line, i))
  {
    hide Held, LockInv, MarksInv, ConservationInv;
    var s' := DoStoreLine(s, p, line, i);
    OwnItem(s, p, i);
    LockStepKeeps(s, s', p, i);
    MarkStepKeeps(s, s', p, i);
    StoreConserves(s, p, line, i);
  }

  lemma SetWrittenKeeps(s: State, p: nat, i: nat)
    requires Inv(s) && p < |s.pcs| && s.pcs[p] == SetWritten(i)
    ensures Inv(DoSetWritten(s, p, i))
  {
    hide Held, LockInv, MarksInv;
    var s' := DoSetWritten(s, p, i);
    OwnItem(s, p, i);
    LockStepKeeps(s, s', p, i);
    MarkStepKeeps(s, s', p, i);
    assert Storing(s) == Storing(s') + {p};
    NothingMoved(s, s', i);
  }

  lemma UnlockItemKeeps(s: State, p: nat, i: nat)
    requires Inv(s) && p < |s.pcs| && s.pcs[p] == UnlockItem(i)
    ensures Inv(DoUnlockItem(s, p, i))
  {
    hide Held, LockInv, MarksInv;
    var s' := DoUnlockItem(s, p, i);
    OwnItem(s, p, i);
    LockStepKeeps(s, s', p, i);
    MarkStepKeeps(s, s', p, i);
    assert Storing(s') == Storing(s);
    NothingMoved(s, s', i);
  }

  lemma PushKeeps(s: State, p: nat, line: Line)
    requires Inv(s) && p < |s.pcs|
    ensures Inv(DoPush(s, p, line))
  {
    hide Held, LockInv, MarksInv, ConservationInv, BoundsInv;
    if s.pcs[p] == Idle {
      DetachedKeeps(s, DoPush(s, p, line), p);
    }
  }

  lemma StepKeeps(s: State, p: nat)
    requires Inv(s) && p < |s.pcs|
    ensures Inv(DoStep(s, p))
  {
    hide Held, LockInv, MarksInv, ConservationInv, BoundsInv;
    match s.pcs[p]
    case Idle =>
    case TakeTicket(line) => DetachedKeeps(s, DoTakeTicket(s, p, line), p);
    case LockItem(line, i) => LockItemKeeps(s, p, line, i);
    case StoreLine(line, i) => StoreLineKeeps(s, p, line, i);
    case SetWritten(i) => SetWrittenKeeps(s, p, i);
    case UnlockItem(i) => UnlockItemKeeps(s, p, i);
  }

  // ------------------------------------------------------------------ the consumer

  predicate ReaderMove(s: State, s': State, i: nat)
    requires Sized(s)
  {
    && Sized(s') && s'.size == s.size && s'.pcs == s.pcs && i < s.size && s'.ring == s.ring[i := s'.ring[i]]
    && (s'.reader.Start? || s'.reader.index == i)
    && (s.reader.Start? || s.reader.index == i)
    && (s.reader == Start ==> s.ring[i].flag == Nobody)
    && s'.ring[i].flag == (if s'.reader == Start then Nobody else Consumer)
    && (!s'.reader.Start? && !s'.reader.ReleaseItem? ==> i == s'.readIndex % s.size)
  }

  lemma ReaderMoveKeeps(s: State, s': State, i: nat)
    requires Inv(s) && ReaderMove(s, s', i) && MarkInv(s', i)
    requires s'.reader.MoveLine? ==> s'.ring[i].written
    ensures LockInv(s') && BoundsInv(s') && MarksInv(s')
  {
    hide Held, ConservationInv;
    forall j | 0 <= j < s.size ensures HolderInside(s', j) && MarkInv(s', j) {
      InvAt(s, j);
    }
  }

  lemma OwnReadItem(s: State)
    requires Inv(s) && s.reader != Start
    ensures Owns(s, s.reader.index, Consumer) && s.reader.index < s.size && MarkInv(s, s.reader.index)
    ensures s.reader.MoveLine? ==> s.ring[s.reader.index].line.Some?
  {
    assert Owns(s, s.reader.index, Consumer);
  }

  lemma MoveConserves(s: State, i: nat)
    requires Inv(s) && s.reader == MoveLine(i) && Owns(s, i, Consumer) && s.ring[i].line.Some?
    ensures ConservationInv(DoMoveLine(s, i))
  {
    hide Held, LockInv, MarksInv, BoundsInv;
    var s' := DoMoveLine(s, i);
    HeldUpdate(s.ring, i, s'.ring[i]);
    assert Storing(s') == Storing(s);
    assert Held(s.ring) == Held(s'.ring) + multiset{s.ring[i].line.value};
  }

  lemma ReadKeeps(s: State)
    requires Inv(s)
    ensures Inv(DoRead(s))
  {
    hide Held, LockInv, MarksInv, ConservationInv;
    var s' := DoRead(s);
    if s.reader == Start {
      var i := s.readIndex % s.size;
      if s.ring[i].flag == Nobody {
        InvAt(s, i);
        ReaderMoveKeeps(s, s', i);
        assert Storing(s') == Storing(s);
        NothingMoved(s, s', i);
      }
    } else {
      var i := s.reader.index;
      OwnReadItem(s);
      ReaderMoveKeeps(s, s', i);
      assert Storing(s') == Storing(s);
      if s.reader.MoveLine? {
        MoveConserves(s, i);
      } else {
        NothingMoved(s, s', i);
      }
    }
  }

  // ------------------------------------------------------------------- every run

  lemma ApplyKeeps(s: State, a: Action)
    requires Sized(s) && Inv(s)
    ensures Inv(Apply(s, a))
  {
    hide Inv;
    match a
    case Push(p, line) => if p < |s.pcs| { PushKeeps(s, p, line); }
    case Step(p) => if p < |s.pcs| { StepKeeps(s, p); }
    case Read => ReadKeeps(s);
  }

  lemma {:induction false} EveryRun(size: nat, producers: nat, schedule: seq<Action>)
    requires size > 0
    ensures Inv(Exec(Init(size, producers), schedule))
    decreases |schedule|
  {
    hide Inv, Apply;
    if schedule == [] {
      InitInv(size, producers);
    } else {
      var before := schedule[..|schedule| - 1];
      EveryRun(size, producers, before);
      ApplyKeeps(Exec(Init(size, producers), before), schedule[|schedule| - 1]);
    }
  }

  /** Two threads are never inside the critical section of one item, and no access goes wrong. */
  lemma ItemsAreExclusive(size: nat, producers: nat, schedule: seq<Action>, p: nat, q: nat)
    requires size > 0 && p < producers && q < producers
    ensures var s := Exec(Init(size, producers), schedule);
            && !s.fault
            && (ItemOf(s.pcs[p]).Some? && ItemOf(s.pcs[p]) == ItemOf(s.pcs[q]) ==> p == q)
            && (ItemOf(s.pcs[p]).Some? ==> ItemOf(s.pcs[p]) != ReaderItemOf(s.reader))
  {
    EveryRun(size, producers, schedule);
    OneHolder(Exec(Init(size, producers), schedule), p, q);
  }

  lemma OneHolder(s: State, p: nat, q: nat)
    requires Inv(s) && p < |s.pcs| && q < |s.pcs|
    ensures ItemOf(s.pcs[p]).Some? && ItemOf(s.pcs[p]) == ItemOf(s.pcs[q]) ==> p == q
    ensures ItemOf(s.pcs[p]).Some? ==> ItemOf(s.pcs[p]) != ReaderItemOf(s.reader)
  {
    hide Held, ConservationInv;
  }

  /** Every line stored is delivered, overwritten unread, or still in the ring: none twice, none vanishes. */
  lemma LinesAreConserved(size: nat, producers: nat, schedule: seq<Action>)
    requires size > 0
    ensures var s := Exec(Init(size, producers), schedule);
            multiset(s.stored) == multiset(s.out) + multiset(s.overwritten) + Held(s.ring)
  {
    EveryRun(size, producers, schedule);
  }

  /** The occupied items: those a try_pop would deliver from. */
  function Occupied(ring: seq<Item>): set<nat> {
    set i: nat | i < |ring| && ring[i].written
  }

  lemma OccupiedSnoc(ring: seq<Item>)
    requires ring != []
    ensures var n := |ring| - 1;
            |Occupied(ring)| == |Occupied(ring[..n])| + if ring[n].written then 1 else 0
  {
    var n := |ring| - 1;
    assert Occupied(ring) == Occupied(ring[..n]) + if ring[n].written then {n} else {};
  }

  lemma {:induction false} HeldSize(ring: seq<Item>)
    requires forall i :: 0 <= i < |ring| ==> (ring[i].written <==> ring[i].line.Some?)
    ensures |Held(ring)| == |Occupied(ring)|
    decreases |ring|
  {
    if ring != [] {
      HeldSize(ring[..|ring| - 1]);
      OccupiedSnoc(ring);
    } else {
      assert Occupied(ring) == {};
    }
  }

  /** Between critical sections: completed pushes = pops + overwritten lines + occupied items. */
  lemma PushesBalance(size: nat, producers: nat, schedule: seq<Action>)
    requires size > 0
    ensures var s := Exec(Init(size, producers), schedule);
            (forall p :: 0 <= p < producers ==> !s.pcs[p].SetWritten?) && !s.reader.ClearWritten? ==>
              s.completed == |s.out| + |s.overwritten| + |Occupied(s.ring)|
  {
    EveryRun(size, producers, schedule);
    var s := Exec(Init(size, producers), schedule);
    hide Held;
    if (forall p :: 0 <= p < producers ==> !s.pcs[p].SetWritten?) && !s.reader.ClearWritten? {
      forall i | 0 <= i < |s.ring| ensures s.ring[i].written <==> s.ring[i].line.Some? {
        assert MarkInv(s, i);
      }
      HeldSize(s.ring);
      assert Storing(s) == {};
      assert |multiset(s.stored)| == |multiset(s.out) + multiset(s.overwritten) + Held(s.ring)|;
    }
  }
}
