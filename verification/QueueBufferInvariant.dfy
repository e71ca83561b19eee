// What every step of the log queue keeps.
module QueueBufferInvariant {
  import opened Machine
  import opened QueueBuffer
  import opened Threads

  /** The global position of a slot: buffers in allocation order, slots within them. */
  function Position(size: nat, b: nat, t: nat): nat {
    b * size + t
  }

  lemma PositionOrder(size: nat, b: nat, b': nat)
    requires b < b'
    ensures Position(size, b, size) <= Position(size, b', 0)
  {
    assert (b + 1) * size <= b' * size;
  }

  function AllSlots(size: nat): (slots: set<nat>)
    ensures |slots| == size
    ensures forall t: nat :: t in slots <==> t < size
  {
    if size == 0 then {} else AllSlots(size - 1) + {size - 1}
  }

  /** The installer has published the next buffer but not yet reopened the ticket counter. */
  predicate Swapped(s: State) {
    && s.installer.Some? && s.installer.value < |s.pcs|
    && (s.pcs[s.installer.value].LockQueue? || s.pcs[s.installer.value].PushBuffer? || s.pcs[s.installer.value].ResetIndex?)
  }

  predicate Installing(pc: ProducerPc) {
    pc.NewBuffer? || pc.LockQueue? || pc.PushBuffer? || pc.ResetIndex?
  }

  /** Tickets of the current buffer drawn so far. */
  function Drawn(s: State): nat {
    if Swapped(s) then 0 else if s.writeIndex < s.size then s.writeIndex else s.size
  }

  /** Buffers that have ever entered the queue. */
  function Queued(s: State): nat {
    if Swapped(s) && !s.pcs[s.installer.value].ResetIndex? then s.current else s.current + 1
  }

  function Spinners(s: State): set<nat> {
    set p: nat | p < |s.pcs| && s.pcs[p].SpinWait?
  }

  /** Lines of the buffer being popped count as read even though it is still queued. */
  predicate Popping(s: State) {
    s.reader == LockPop || s.reader == PopFront
  }

  // ------------------------------------------------------------ the invariant

  predicate ShapeInv(s: State) {
    && Sized(s) && s.size > 0 && s.size + |s.pcs| < TWO_32
    && |s.buffers| == |s.finished| == s.current + 1
    && (forall b :: 0 <= b < |s.buffers| ==> |s.buffers[b].items| == |s.buffers[b].writeState| == s.size)
  }

  predicate ClaimsInv(s: State)
    requires ShapeInv(s)
  {
    && |s.claims| == Position(s.size, s.current, Drawn(s))
    && (forall k :: 0 <= k < |s.claims| ==>
          && s.claims[k].slot < s.size && s.claims[k].buffer <= s.current && s.claims[k].producer < |s.pcs|
          && Position(s.size, s.claims[k].buffer, s.claims[k].slot) == k
          && k <= s.lastClaim[s.claims[k].producer])
  }

  /** At most one producer installs; while it does, nobody else can draw a ticket below size. */
  predicate PhaseInv(s: State)
    requires ShapeInv(s)
  {
    && (forall p :: 0 <= p < |s.pcs| ==> (Installing(s.pcs[p]) <==> s.installer == Some(p)))
    && (s.installer.Some? ==> s.installer.value < |s.pcs| && s.writeIndex >= s.size)
    && (Swapped(s) ==> s.finished[s.current] == {})
    && (s.installer.Some? && !Swapped(s) ==> s.finished[s.current] == AllSlots(s.size))
    && (s.installer == None ==> s.finished[s.current] != AllSlots(s.size))
  }

  predicate FinishedInv(s: State)
    requires ShapeInv(s)
  {
    && (forall b :: 0 <= b < |s.buffers| ==>
          s.finished[b] <= AllSlots(s.size) && s.buffers[b].writeCount == |s.finished[b]|)
    && (forall b :: 0 <= b < s.current ==> s.finished[b] == AllSlots(s.size))
  }

  /** What the producer of an unfinished claim is doing, and what its slot holds meanwhile. */
  predicate InFlight(s: State, k: nat, pc: ProducerPc, b: nat, t: nat, item: Slot, written: bool)
    requires k < |s.claims|
  {
    match pc
    case LoadBuffer(line, t') => t' == t && line == s.claims[k].line && item == Empty && !written && k >= |s.out|
    case WriteItem(line, t', b') => t' == t && b' == b && line == s.claims[k].line && item == Empty && !written && k >= |s.out|
    case StoreState(t', b') => t' == t && b' == b && item == Full(s.claims[k].line) && !written && k >= |s.out|
    case CountItem(t', b') => t' == t && b' == b && item == Published(s, k) && written
    case _ => false
  }

  /** A published item is there until the consumer moves it out. */
  function Published(s: State, k: nat): Slot
    requires k < |s.claims|
  {
    if k < |s.out| then MovedFrom else Full(s.claims[k].line)
  }

  predicate SlotInv(s: State, b: nat, t: nat)
    requires ShapeInv(s) && b < |s.buffers| && t < s.size
  {
    var k, item, written := Position(s.size, b, t), s.buffers[b].items[t], s.buffers[b].writeState[t];
    if k >= |s.claims| then item == Empty && !written && t !in s.finished[b]
    else if s.claims[k].buffer != b || s.claims[k].slot != t then false
    else if t in s.finished[b] then item == Published(s, k) && written
    else
      var p := s.claims[k].producer;
      b == s.current && p < |s.pcs| && s.lastClaim[p] == k && InFlight(s, k, s.pcs[p], b, t, item, written)
  }

  predicate SlotsInv(s: State)
    requires ShapeInv(s)
  {
    forall b, t :: 0 <= b < |s.buffers| && 0 <= t < s.size ==> SlotInv(s, b, t)
  }

  /** The ticket a producer holds is that of its latest claim, on the current buffer. */
  predicate HoldsClaim(s: State, p: nat, t: nat)
    requires Sized(s) && p < |s.pcs|
  {
    && t < s.size && s.lastClaim[p] < |s.claims|
    && s.lastClaim[p] == Position(s.size, s.current, t)
    && s.claims[s.lastClaim[p]].producer == p
    && s.claims[s.lastClaim[p]].buffer == s.current && s.claims[s.lastClaim[p]].slot == t
    && s.current < |s.finished| && t !in s.finished[s.current]
  }

  predicate PcInv(s: State, p: nat)
    requires Sized(s) && p < |s.pcs|
  {
    match s.pcs[p]
    case LoadBuffer(line, t) => HoldsClaim(s, p, t) && s.claims[s.lastClaim[p]].line == line
    case WriteItem(line, t, b) => HoldsClaim(s, p, t) && b == s.current && s.claims[s.lastClaim[p]].line == line
    case StoreState(t, b) => HoldsClaim(s, p, t) && b == s.current
    case CountItem(t, b) => HoldsClaim(s, p, t) && b == s.current
    case LockQueue(b) => b == s.current
    case PushBuffer(b) => b == s.current && s.lock == Producer(p)
    case ResetIndex => s.lock == Producer(p)
    case UnlockQueue => s.lock == Producer(p)
    case _ => true
  }

  predicate PcsInv(s: State)
    requires ShapeInv(s)
  {
    forall p :: 0 <= p < |s.pcs| ==> PcInv(s, p)
  }

  predicate IndexInv(s: State)
    requires ShapeInv(s)
  {
    s.writeIndex <= s.size + |Spinners(s)|
  }

  predicate QueueInv(s: State)
    requires ShapeInv(s)
  {
    && s.popped + |s.queue| == Queued(s)
    && (forall i :: 0 <= i < |s.queue| ==> s.queue[i] == s.popped + i)
  }

  predicate ReaderInv(s: State)
    requires ShapeInv(s)
  {
    && s.readIndex < s.size
    && (s.reader in {ReadFront, UnlockFront, PopFront, UnlockPop} ==> s.lock == Consumer)
    && (s.readBuffer.Some? ==> s.readBuffer.value == s.popped && s.queue != [])
    && (Popping(s) ==> s.readBuffer == None && s.queue != [] && s.readIndex == 0)
    && (s.reader in {LoadState, MoveItem} ==> s.readBuffer.Some?)
    && (s.reader in {LockFront, ReadFront, UnlockPop} ==> s.readBuffer == None)
    && (s.reader == MoveItem ==> s.popped < |s.buffers| && s.buffers[s.popped].writeState[s.readIndex])
  }

  predicate OutInv(s: State)
    requires ShapeInv(s)
  {
    && |s.out| == Position(s.size, s.popped, if Popping(s) then s.size else s.readIndex)
    && |s.out| <= |s.claims|
    && (forall k :: 0 <= k < |s.out| ==> s.out[k] == s.claims[k].line)
  }

  /** The lines a producer has drawn tickets for, in drawing order. */
  function LinesOf(claims: seq<Claim>, p: nat): seq<Line> {
    if claims == [] then []
    else
      var last := claims[|claims| - 1];
      LinesOf(claims[..|claims| - 1], p) + if last.producer == p then [last.line] else []
  }

  function Unclaimed(pc: ProducerPc): seq<Line> {
    match pc
    case TakeTicket(line) => [line]
    case SpinWait(line) => [line]
    case _ => []
  }

  predicate OrderInv(s: State)
    requires ShapeInv(s)
  {
    forall p :: 0 <= p < |s.pcs| ==> s.pushed[p] == LinesOf(s.claims, p) + Unclaimed(s.pcs[p])
  }

  predicate Inv(s: State) {
    && !s.fault && ShapeInv(s) && ClaimsInv(s) && PhaseInv(s) && FinishedInv(s) && SlotsInv(s)
    && PcsInv(s) && IndexInv(s) && QueueInv(s) && ReaderInv(s) && OutInv(s) && OrderInv(s)
  }

  // ------------------------------------------------------------------- start

  lemma InitInv(size: nat, producers: nat)
    requires size > 0 && size + producers < TWO_32
    ensures Inv(Init(size, producers))
  {
    var s := Init(size, producers);
    assert 0 in AllSlots(size);
    assert LinesOf(s.claims, 0) == [];
  }

  // --------------------------------------------- steps of one producer's push

  /** A producer between two lock-free operations, or idle. */
  predicate Quiet(pc: ProducerPc) {
    pc.Idle? || pc.LoadBuffer? || pc.WriteItem? || pc.StoreState? || pc.CountItem?
  }

  /** Only the program counter of `p` and the contents of buffers differ. */
  predicate LocalMove(s: State, s': State, p: nat) {
    && p < |s.pcs| && |s'.pcs| == |s.pcs| && |s'.buffers| == |s.buffers|
    && s' == s.(pcs := s.pcs[p := s'.pcs[p]], buffers := s'.buffers)
  }

  lemma QuietMove(s: State, s': State, p: nat)
    requires Inv(s) && LocalMove(s, s', p) && ShapeInv(s')
    requires Quiet(s.pcs[p]) && Quiet(s'.pcs[p])
    ensures ClaimsInv(s') && PhaseInv(s') && IndexInv(s') && QueueInv(s') && OutInv(s') && OrderInv(s')
  {
    hide LinesOf, Position, PcInv, SlotInv, SlotsInv, FinishedInv, ReaderInv, PcsInv, AllSlots;
    assert Spinners(s') == Spinners(s);
  }

  /** The other producers' obligations survive a move of `p` that leaves `finished` alone. */
  lemma OtherPcs(s: State, s': State, p: nat)
    requires Inv(s) && LocalMove(s, s', p) && ShapeInv(s') && PcInv(s', p)
    ensures PcsInv(s')
  {
    hide LinesOf, Position, SlotInv, SlotsInv, FinishedInv, ReaderInv, AllSlots, Installing, IndexInv, OrderInv,
         OutInv, QueueInv, PhaseInv;
    forall q | 0 <= q < |s.pcs| ensures PcInv(s', q) {
      assert PcInv(s, q);
    }
  }

  /** A slot is untouched by a move of `p` that holds a claim on another slot. */
  lemma OtherSlots(s: State, s': State, p: nat, t: nat)
    requires Inv(s) && LocalMove(s, s', p) && ShapeInv(s')
    requires HoldsClaim(s, p, t) && SlotInv(s', s.current, t)
    requires forall b :: 0 <= b < |s.buffers| && b != s.current ==> s'.buffers[b] == s.buffers[b]
    requires forall u :: 0 <= u < s.size && u != t ==>
               && s'.buffers[s.current].items[u] == s.buffers[s.current].items[u]
               && s'.buffers[s.current].writeState[u] == s.buffers[s.current].writeState[u]
    ensures SlotsInv(s')
  {
    hide LinesOf, Position, PcInv, PcsInv, FinishedInv, ReaderInv, AllSlots, Installing, IndexInv, OrderInv,
         OutInv, QueueInv, PhaseInv;
    forall b, u | 0 <= b < |s.buffers| && 0 <= u < s.size ensures SlotInv(s', b, u) {
      assert SlotInv(s, b, u);
    }
  }

  /** The slot on which producer `p` holds its claim is the one its program counter speaks of. */
  lemma HeldSlot(s: State, p: nat, t: nat)
    requires Inv(s) && p < |s.pcs| && HoldsClaim(s, p, t)
    ensures SlotInv(s, s.current, t)
    ensures InFlight(s, s.lastClaim[p], s.pcs[p], s.current, t, s.buffers[s.current].items[t], s.buffers[s.current].writeState[t])
  {
    assert SlotInv(s, s.current, t);
  }

  lemma LoadBufferKeeps(s: State, p: nat, line: Line, t: nat)
    requires Inv(s) && p < |s.pcs| && s.pcs[p] == LoadBuffer(line, t)
    ensures Inv(SetPc(s, p, WriteItem(line, t, s.current)))
  {
    hide LinesOf, Position, OrderInv, IndexInv, QueueInv, PhaseInv, OutInv, AllSlots, ClaimsInv;
    var s' := SetPc(s, p, WriteItem(line, t, s.current));
    assert PcInv(s, p);
    HeldSlot(s, p, t);
    QuietMove(s, s', p);
    OtherPcs(s, s', p);
    OtherSlots(s, s', p, t);
  }

  lemma WriteItemKeeps(s: State, p: nat, line: Line, t: nat, b: nat)
    requires Inv(s) && p < |s.pcs| && s.pcs[p] == WriteItem(line, t, b)
    ensures Inv(DoWriteItem(s, p, line, t, b))
  {
    hide LinesOf, Position, OrderInv, IndexInv, QueueInv, PhaseInv, OutInv, AllSlots, ClaimsInv;
    var s' := DoWriteItem(s, p, line, t, b);
    assert PcInv(s, p);
    HeldSlot(s, p, t);
    QuietMove(s, s', p);
    OtherPcs(s, s', p);
    OtherSlots(s, s', p, t);
  }

  lemma StoreStateKeeps(s: State, p: nat, t: nat, b: nat)
    requires Inv(s) && p < |s.pcs| && s.pcs[p] == StoreState(t, b)
    ensures Inv(DoStoreState(s, p, t, b))
  {
    hide LinesOf, Position, OrderInv, IndexInv, QueueInv, PhaseInv, AllSlots, ClaimsInv;
    var s' := DoStoreState(s, p, t, b);
    assert PcInv(s, p);
    HeldSlot(s, p, t);
    QuietMove(s, s', p);
    OtherPcs(s, s', p);
    OtherSlots(s, s', p, t);
  }

  // --------------------------------------------------- calling push, and spinning

  /** Only program counters outside the slots and the lock change. */
  predicate Detached(pc: ProducerPc) {
    pc.Idle? || pc.TakeTicket? || pc.SpinWait?
  }

  lemma DetachedMove(s: State, s': State, p: nat)
    requires Inv(s) && p < |s.pcs| && Detached(s.pcs[p]) && Sized(s') && |s'.pcs| == |s.pcs| && Detached(s'.pcs[p])
    requires s' == s.(pcs := s.pcs[p := s'.pcs[p]], pushed := s'.pushed)
    ensures ShapeInv(s') && ClaimsInv(s') && PhaseInv(s') && FinishedInv(s') && SlotsInv(s')
    ensures PcsInv(s') && QueueInv(s') && ReaderInv(s') && OutInv(s')
  {
    hide LinesOf, Position, OrderInv, IndexInv, AllSlots;
    forall b, t | 0 <= b < |s.buffers| && 0 <= t < s.size ensures SlotInv(s', b, t) {
      assert SlotInv(s, b, t);
    }
    forall q | 0 <= q < |s.pcs| ensures PcInv(s', q) {
      assert PcInv(s, q);
    }
  }

  lemma PushKeeps(s: State, p: nat, line: Line)
    requires Inv(s) && p < |s.pcs|
    ensures Inv(DoPush(s, p, line))
  {
    hide LinesOf, Position, AllSlots, SlotsInv, PcsInv, QueueInv, ReaderInv, OutInv, PhaseInv, ClaimsInv, FinishedInv;
    var s' := DoPush(s, p, line);
    if s.pcs[p] == Idle {
      DetachedMove(s, s', p);
      assert Spinners(s') == Spinners(s);
    }
  }

  lemma SpinWaitKeeps(s: State, p: nat, line: Line)
    requires Inv(s) && p < |s.pcs| && s.pcs[p] == SpinWait(line) && s.writeIndex < s.size
    ensures Inv(SetPc(s, p, TakeTicket(line)))
  {
    hide LinesOf, Position, AllSlots, SlotsInv, PcsInv, QueueInv, ReaderInv, OutInv, PhaseInv, ClaimsInv, FinishedInv;
    DetachedMove(s, SetPc(s, p, TakeTicket(line)), p);
  }

  // ------------------------------------------------------------ drawing a ticket

  /** There is always another thread not spinning, so a late ticket is at most size + producers - 1. */
  lemma TicketsDoNotWrap(s: State, p: nat)
    requires Inv(s) && p < |s.pcs| && !s.pcs[p].SpinWait?
    ensures s.writeIndex + 1 < TWO_32
  {
    hide LinesOf, Position, AllSlots, SlotsInv, PcsInv, QueueInv, ReaderInv, OutInv, PhaseInv, ClaimsInv,
         FinishedInv, OrderInv;
    SubsetSize(Spinners(s), |s.pcs|);
    assert p !in Spinners(s) && p in AllSlots(|s.pcs|);
  }

  lemma SubsetSize(x: set<nat>, n: nat)
    requires forall t :: t in x ==> t < n
    ensures |x| <= n
    ensures |x| == n ==> x == AllSlots(n)
  {
    var all := AllSlots(n);
    assert x <= all;
    SubsetCardinality(x, all);
  }

  lemma SubsetCardinality<T>(x: set<T>, y: set<T>)
    requires x <= y
    ensures |x| <= |y|
    ensures |x| == |y| ==> x == y
  {
    assert y == x + (y - x);
    assert |y| == |x| + |y - x|;
  }

  lemma LateTicketIndex(s: State, p: nat, line: Line)
    requires Inv(s) && p < |s.pcs| && s.pcs[p] == TakeTicket(line) && s.size <= s.writeIndex < TWO_32 - 1
    requires ShapeInv(DoTakeTicket(s, p, line))
    ensures IndexInv(DoTakeTicket(s, p, line))
  {
    hide LinesOf, Position, AllSlots, SlotsInv, PcsInv, QueueInv, ReaderInv, OutInv, PhaseInv, ClaimsInv,
         FinishedInv, OrderInv;
    assert Spinners(DoTakeTicket(s, p, line)) == Spinners(s) + {p};
  }

  lemma LateTicketKeeps(s: State, p: nat, line: Line)
    requires Inv(s) && p < |s.pcs| && s.pcs[p] == TakeTicket(line) && s.writeIndex >= s.size
    ensures Inv(DoTakeTicket(s, p, line))
  {
    hide LinesOf, Position, AllSlots, SlotsInv, PcsInv, QueueInv, ReaderInv, OutInv, PhaseInv, ClaimsInv,
         FinishedInv, OrderInv, ShapeInv, IndexInv;
    TicketsDoNotWrap(s, p);
    LateTicketMove(s, p, line);
    LateTicketIndex(s, p, line);
  }

  lemma LateTicketMove(s: State, p: nat, line: Line)
    requires Inv(s) && p < |s.pcs| && s.pcs[p] == TakeTicket(line) && s.size <= s.writeIndex < TWO_32 - 1
    ensures var s' := DoTakeTicket(s, p, line);
            && ShapeInv(s') && ClaimsInv(s') && PhaseInv(s') && FinishedInv(s') && SlotsInv(s')
            && PcsInv(s') && QueueInv(s') && ReaderInv(s') && OutInv(s') && OrderInv(s')
  {
    hide LinesOf, Position, IndexInv, AllSlots;
    var s' := DoTakeTicket(s, p, line);
    forall b, t | 0 <= b < |s.buffers| && 0 <= t < s.size ensures SlotInv(s', b, t) {
      assert SlotInv(s, b, t);
    }
    forall q | 0 <= q < |s.pcs| ensures PcInv(s', q) {
      assert PcInv(s, q);
    }
  }

  /** A ticket below size claims the next position, on the buffer that is current when it is drawn. */
  lemma TicketPosition(s: State)
    requires Inv(s) && s.writeIndex < s.size
    ensures s.installer == None
    ensures |s.claims| == Position(s.size, s.current, s.writeIndex)
    ensures forall b, t :: 0 <= b < |s.buffers| && 0 <= t < s.size && Position(s.size, b, t) == |s.claims| ==>
              b == s.current && t == s.writeIndex
    ensures s.writeIndex !in s.finished[s.current]
  {
    hide LinesOf, PcsInv, QueueInv, ReaderInv, OutInv, FinishedInv, OrderInv, IndexInv, AllSlots;
    forall b, t | 0 <= b < |s.buffers| && 0 <= t < s.size && Position(s.size, b, t) == |s.claims|
      ensures b == s.current && t == s.writeIndex
    {
      if b < s.current {
        PositionOrder(s.size, b, s.current);
      }
    }
    assert SlotInv(s, s.current, s.writeIndex);
  }

  lemma TicketSlots(s: State, p: nat, line: Line)
    requires Inv(s) && p < |s.pcs| && s.pcs[p] == TakeTicket(line) && s.writeIndex < s.size
    ensures ShapeInv(DoTakeTicket(s, p, line)) && SlotsInv(DoTakeTicket(s, p, line))
  {
    hide LinesOf, Position, PcsInv, QueueInv, ReaderInv, FinishedInv, OrderInv, IndexInv, AllSlots, PhaseInv;
    var s' := DoTakeTicket(s, p, line);
    TicketPosition(s);
    forall b, t | 0 <= b < |s.buffers| && 0 <= t < s.size ensures SlotInv(s', b, t) {
      assert SlotInv(s, b, t);
    }
  }

  lemma TicketPcs(s: State, p: nat, line: Line)
    requires Inv(s) && p < |s.pcs| && s.pcs[p] == TakeTicket(line) && s.writeIndex < s.size
    requires ShapeInv(DoTakeTicket(s, p, line))
    ensures PcsInv(DoTakeTicket(s, p, line))
  {
    hide LinesOf, Position, SlotsInv, SlotInv, QueueInv, ReaderInv, FinishedInv, OrderInv, IndexInv, AllSlots,
         PhaseInv, OutInv;
    var s' := DoTakeTicket(s, p, line);
    TicketPosition(s);
    forall q | 0 <= q < |s.pcs| ensures PcInv(s', q) {
      assert PcInv(s, q);
    }
  }

  lemma LinesOfSnoc(claims: seq<Claim>, c: Claim, p: nat)
    ensures LinesOf(claims + [c], p) == LinesOf(claims, p) + if c.producer == p then [c.line] else []
  {
    assert (claims + [c])[..|claims|] == claims;
  }

  lemma TicketOrder(s: State, p: nat, line: Line)
    requires Inv(s) && p < |s.pcs| && s.pcs[p] == TakeTicket(line) && s.writeIndex < s.size
    requires ShapeInv(DoTakeTicket(s, p, line))
    ensures OrderInv(DoTakeTicket(s, p, line))
  {
    hide LinesOf, Position, SlotsInv, SlotInv, QueueInv, ReaderInv, FinishedInv, IndexInv, AllSlots, PhaseInv,
         OutInv, PcsInv, PcInv;
    var s' := DoTakeTicket(s, p, line);
    forall q | 0 <= q < |s.pcs| ensures s'.pushed[q] == LinesOf(s'.claims, q) + Unclaimed(s'.pcs[q]) {
      LinesOfSnoc(s.claims, Claim(p, line, s.current, s.writeIndex), q);
    }
  }

  lemma TicketRest(s: State, p: nat, line: Line)
    requires Inv(s) && p < |s.pcs| && s.pcs[p] == TakeTicket(line) && s.writeIndex < s.size
    requires ShapeInv(DoTakeTicket(s, p, line))
    ensures var s' := DoTakeTicket(s, p, line);
            !s'.fault && ClaimsInv(s') && FinishedInv(s') && ReaderInv(s') && OutInv(s')
  {
    hide LinesOf, SlotsInv, SlotInv, OrderInv, AllSlots, PcsInv, PcInv, QueueInv, IndexInv;
    TicketPosition(s);
  }

  lemma TicketPhase(s: State, p: nat, line: Line)
    requires Inv(s) && p < |s.pcs| && s.pcs[p] == TakeTicket(line) && s.writeIndex < s.size
    requires ShapeInv(DoTakeTicket(s, p, line))
    ensures var s' := DoTakeTicket(s, p, line);
            PhaseInv(s') && QueueInv(s') && IndexInv(s')
  {
    hide LinesOf, Position, SlotsInv, SlotInv, OrderInv, AllSlots, PcsInv, PcInv, FinishedInv, ReaderInv, OutInv,
         ClaimsInv;
    TicketPosition(s);
    assert Spinners(DoTakeTicket(s, p, line)) == Spinners(s);
  }

  lemma EarlyTicketKeeps(s: State, p: nat, line: Line)
    requires Inv(s) && p < |s.pcs| && s.pcs[p] == TakeTicket(line) && s.writeIndex < s.size
    ensures Inv(DoTakeTicket(s, p, line))
  {
    hide ClaimsInv, PhaseInv, FinishedInv, SlotsInv, PcsInv, IndexInv, QueueInv, ReaderInv, OutInv, OrderInv,
         DoTakeTicket;
    TicketSlots(s, p, line);
    TicketPcs(s, p, line);
    TicketOrder(s, p, line);
    TicketRest(s, p, line);
    TicketPhase(s, p, line);
  }

  // ------------------------------------------------------- completing a buffer

  /** While a slot is still to be counted, no buffer switch is under way. */
  lemma NoSwitchWhileHeld(s: State, p: nat, t: nat)
    requires Inv(s) && p < |s.pcs| && HoldsClaim(s, p, t)
    ensures s.installer == None
  {
    hide LinesOf, SlotsInv, SlotInv, PcsInv, PcInv, QueueInv, ReaderInv, OutInv, OrderInv, IndexInv;
    assert t in AllSlots(s.size);
    assert s.lastClaim[p] < |s.claims|;
  }

  /** A buffer is complete only after all its tickets have been drawn. */
  lemma CompleteMeansDrawn(s: State, p: nat, t: nat)
    requires Inv(s) && p < |s.pcs| && HoldsClaim(s, p, t) && s.installer == None
    requires s.finished[s.current] + {t} == AllSlots(s.size)
    ensures s.writeIndex >= s.size
  {
    hide LinesOf, PcsInv, PcInv, QueueInv, ReaderInv, OutInv, OrderInv, IndexInv;
    var u := s.size - 1;
    assert u in AllSlots(s.size);
    assert SlotInv(s, s.current, u);
    assert Position(s.size, s.current, u) < |s.claims|;
  }

  lemma PcOf(s: State, p: nat)
    requires Inv(s) && p < |s.pcs|
    ensures PcInv(s, p)
  {
  }

  lemma CountShape(s: State, p: nat, t: nat, b: nat)
    requires Inv(s) && p < |s.pcs| && s.pcs[p] == CountItem(t, b)
    ensures b == s.current && SlotExists(s, b, t) && HoldsClaim(s, p, t) && s.installer == None
    ensures ShapeInv(DoCountItem(s, p, t, b))
  {
    hide LinesOf, Position, SlotsInv, SlotInv, QueueInv, ReaderInv, FinishedInv, OrderInv, IndexInv, ClaimsInv;
    PcOf(s, p);
    NoSwitchWhileHeld(s, p, t);
  }

  lemma CountSlots(s: State, p: nat, t: nat, b: nat)
    requires Inv(s) && p < |s.pcs| && s.pcs[p] == CountItem(t, b)
    requires b == s.current && SlotExists(s, b, t) && HoldsClaim(s, p, t) && ShapeInv(DoCountItem(s, p, t, b))
    ensures SlotsInv(DoCountItem(s, p, t, b))
  {
    hide LinesOf, Position, PcsInv, PcInv, QueueInv, ReaderInv, FinishedInv, OrderInv, IndexInv, ClaimsInv, OutInv,
         PhaseInv, AllSlots;
    HeldSlot(s, p, t);
    var s' := DoCountItem(s, p, t, b);
    forall c, u | 0 <= c < |s.buffers| && 0 <= u < s.size ensures SlotInv(s', c, u) {
      assert SlotInv(s, c, u);
    }
  }

  lemma CountPcs(s: State, p: nat, t: nat, b: nat)
    requires Inv(s) && p < |s.pcs| && s.pcs[p] == CountItem(t, b)
    requires b == s.current && SlotExists(s, b, t) && HoldsClaim(s, p, t) && ShapeInv(DoCountItem(s, p, t, b))
    ensures PcsInv(DoCountItem(s, p, t, b))
  {
    hide LinesOf, Position, SlotsInv, SlotInv, QueueInv, ReaderInv, FinishedInv, OrderInv, IndexInv, ClaimsInv,
         AllSlots, PhaseInv, OutInv;
    var s' := DoCountItem(s, p, t, b);
    forall q | 0 <= q < |s.pcs| ensures PcInv(s', q) {
      assert PcInv(s, q);
    }
  }

  lemma CountFinished(s: State, p: nat, t: nat, b: nat)
    requires Inv(s) && p < |s.pcs| && s.pcs[p] == CountItem(t, b)
    requires b == s.current && SlotExists(s, b, t) && HoldsClaim(s, p, t) && ShapeInv(DoCountItem(s, p, t, b))
    ensures FinishedInv(DoCountItem(s, p, t, b))
    ensures s.buffers[b].writeCount + 1 == s.size <==> s.finished[b] + {t} == AllSlots(s.size)
  {
    hide LinesOf, Position, SlotsInv, SlotInv, QueueInv, ReaderInv, OrderInv, IndexInv, ClaimsInv, AllSlots,
         PhaseInv, OutInv, PcsInv, PcInv;
    var s' := DoCountItem(s, p, t, b);
    SubsetCardinality(s'.finished[b], AllSlots(s.size));
  }

  lemma CountPhase(s: State, p: nat, t: nat, b: nat)
    requires Inv(s) && p < |s.pcs| && s.pcs[p] == CountItem(t, b)
    requires b == s.current && SlotExists(s, b, t) && HoldsClaim(s, p, t) && s.installer == None
    requires ShapeInv(DoCountItem(s, p, t, b))
    requires s.buffers[b].writeCount + 1 == s.size <==> s.finished[b] + {t} == AllSlots(s.size)
    ensures PhaseInv(DoCountItem(s, p, t, b)) && ClaimsInv(DoCountItem(s, p, t, b)) && QueueInv(DoCountItem(s, p, t, b))
  {
    hide LinesOf, Position, SlotsInv, SlotInv, FinishedInv, AllSlots, PcsInv, PcInv, OrderInv, ReaderInv, OutInv,
         IndexInv;
    if s.finished[b] + {t} == AllSlots(s.size) {
      CompleteMeansDrawn(s, p, t);
    }
  }

  lemma CountRest(s: State, p: nat, t: nat, b: nat)
    requires Inv(s) && p < |s.pcs| && s.pcs[p] == CountItem(t, b)
    requires b == s.current && SlotExists(s, b, t) && ShapeInv(DoCountItem(s, p, t, b))
    ensures var s' := DoCountItem(s, p, t, b);
            !s'.fault && ReaderInv(s') && OutInv(s') && OrderInv(s') && IndexInv(s')
  {
    hide LinesOf, Position, SlotsInv, SlotInv, FinishedInv, AllSlots, PcsInv, PcInv, PhaseInv, ClaimsInv, QueueInv;
    assert Spinners(DoCountItem(s, p, t, b)) == Spinners(s);
  }

  lemma CountItemKeeps(s: State, p: nat, t: nat, b: nat)
    requires Inv(s) && p < |s.pcs| && s.pcs[p] == CountItem(t, b)
    ensures Inv(DoCountItem(s, p, t, b))
  {
    hide ClaimsInv, PhaseInv, FinishedInv, SlotsInv, PcsInv, IndexInv, QueueInv, ReaderInv, OutInv, OrderInv,
         SlotExists, HoldsClaim, DoCountItem;
    CountShape(s, p, t, b);
    CountSlots(s, p, t, b);
    CountPcs(s, p, t, b);
    CountFinished(s, p, t, b);
    CountPhase(s, p, t, b);
    CountRest(s, p, t, b);
    InvFromParts(DoCountItem(s, p, t, b));
  }

  lemma InvFromParts(s: State)
    requires !s.fault && ShapeInv(s) && ClaimsInv(s) && PhaseInv(s) && FinishedInv(s) && SlotsInv(s)
    requires PcsInv(s) && IndexInv(s) && QueueInv(s) && ReaderInv(s) && OutInv(s) && OrderInv(s)
    ensures Inv(s)
  {
  }

  // ------------------------------------------------------ installing a new buffer

  lemma NewBufferSlots(s: State, p: nat)
    requires Inv(s) && p < |s.pcs| && s.pcs[p] == NewBuffer
    ensures ShapeInv(DoNewBuffer(s, p)) && SlotsInv(DoNewBuffer(s, p))
    ensures ClaimsInv(DoNewBuffer(s, p)) && OutInv(DoNewBuffer(s, p))
  {
    hide LinesOf, PcsInv, PcInv, QueueInv, ReaderInv, OrderInv, IndexInv, FinishedInv;
    var s' := DoNewBuffer(s, p);
    assert |s.claims| == Position(s.size, s'.current, 0);
    forall b, t | 0 <= b < |s'.buffers| && 0 <= t < s.size ensures SlotInv(s', b, t) {
      if b < |s.buffers| {
        assert SlotInv(s, b, t);
        assert t in AllSlots(s.size);
        PositionOrder(s.size, b, s'.current);
      }
    }
  }

  lemma NewBufferPcs(s: State, p: nat)
    requires Inv(s) && p < |s.pcs| && s.pcs[p] == NewBuffer && ShapeInv(DoNewBuffer(s, p))
    ensures PcsInv(DoNewBuffer(s, p))
  {
    hide LinesOf, Position, SlotsInv, SlotInv, QueueInv, ReaderInv, OrderInv, IndexInv, FinishedInv, ClaimsInv,
         OutInv;
    var s' := DoNewBuffer(s, p);
    forall q | 0 <= q < |s.pcs| ensures PcInv(s', q) {
      assert PcInv(s, q);
      assert forall t :: 0 <= t < s.size ==> t in AllSlots(s.size);
    }
  }

  lemma NewBufferPhase(s: State, p: nat)
    requires Inv(s) && p < |s.pcs| && s.pcs[p] == NewBuffer && ShapeInv(DoNewBuffer(s, p))
    ensures PhaseInv(DoNewBuffer(s, p)) && QueueInv(DoNewBuffer(s, p))
  {
    hide LinesOf, Position, SlotsInv, SlotInv, PcsInv, PcInv, ClaimsInv, OutInv, FinishedInv, ReaderInv, OrderInv,
         IndexInv, AllSlots;
  }

  lemma NewBufferFinished(s: State, p: nat)
    requires Inv(s) && p < |s.pcs| && s.pcs[p] == NewBuffer && ShapeInv(DoNewBuffer(s, p))
    ensures FinishedInv(DoNewBuffer(s, p))
  {
    hide LinesOf, Position, SlotsInv, SlotInv, PcsInv, PcInv, ClaimsInv, OutInv, QueueInv, OrderInv, ReaderInv,
         IndexInv;
  }

  lemma NewBufferRest(s: State, p: nat)
    requires Inv(s) && p < |s.pcs| && s.pcs[p] == NewBuffer && ShapeInv(DoNewBuffer(s, p))
    ensures var s' := DoNewBuffer(s, p);
            !s'.fault && IndexInv(s') && ReaderInv(s') && OrderInv(s')
  {
    hide LinesOf, Position, SlotsInv, SlotInv, PcsInv, PcInv, ClaimsInv, OutInv, QueueInv, FinishedInv, PhaseInv,
         AllSlots;
    assert Spinners(DoNewBuffer(s, p)) == Spinners(s);
  }

  lemma NewBufferKeeps(s: State, p: nat)
    requires Inv(s) && p < |s.pcs| && s.pcs[p] == NewBuffer
    ensures Inv(DoNewBuffer(s, p))
  {
    hide ClaimsInv, PhaseInv, FinishedInv, SlotsInv, PcsInv, IndexInv, QueueInv, ReaderInv, OutInv, OrderInv,
         DoNewBuffer;
    NewBufferSlots(s, p);
    NewBufferPcs(s, p);
    NewBufferPhase(s, p);
    NewBufferFinished(s, p);
    NewBufferRest(s, p);
  }

  /** Steps of the installer and of the lock, which touch no buffer. */
  predicate InstallMove(s: State, s': State, p: nat) {
    && p < |s.pcs| && |s'.pcs| == |s.pcs|
    && s' == s.(pcs := s.pcs[p := s'.pcs[p]], lock := s'.lock, queue := s'.queue,
                writeIndex := s'.writeIndex, installer := s'.installer)
    && (s.pcs[p].LockQueue? || s.pcs[p].PushBuffer? || s.pcs[p].ResetIndex? || s.pcs[p].UnlockQueue?)
    && (s'.pcs[p].PushBuffer? || s'.pcs[p].ResetIndex? || s'.pcs[p].UnlockQueue? || s'.pcs[p].Idle?)
  }

  lemma InstallMoveSlots(s: State, s': State, p: nat)
    requires Inv(s) && InstallMove(s, s', p)
    ensures ShapeInv(s') && SlotsInv(s') && FinishedInv(s') && OrderInv(s') && OutInv(s')
  {
    hide LinesOf, Position, PcsInv, PcInv, QueueInv, ReaderInv, IndexInv, ClaimsInv, AllSlots;
    forall b, t | 0 <= b < |s.buffers| && 0 <= t < s.size ensures SlotInv(s', b, t) {
      assert SlotInv(s, b, t);
    }
  }

  lemma InstallMovePcs(s: State, s': State, p: nat)
    requires Inv(s) && InstallMove(s, s', p) && ShapeInv(s') && PcInv(s', p)
    requires s'.lock == s.lock || s.lock == Nobody || s.lock == Producer(p)
    ensures PcsInv(s')
  {
    hide LinesOf, Position, SlotsInv, SlotInv, QueueInv, ReaderInv, IndexInv, ClaimsInv, AllSlots, OrderInv,
         OutInv, FinishedInv, PhaseInv;
    forall q | 0 <= q < |s.pcs| ensures PcInv(s', q) {
      assert PcInv(s, q);
    }
  }

  lemma LockQueueKeeps(s: State, p: nat, b: nat)
    requires Inv(s) && p < |s.pcs| && s.pcs[p] == LockQueue(b) && s.lock == Nobody
    ensures Inv(SetPc(s, p, PushBuffer(b)).(lock := Producer(p)))
  {
    hide LinesOf, Position, SlotsInv, SlotInv, FinishedInv, OrderInv, AllSlots, OutInv, PcsInv;
    var s' := SetPc(s, p, PushBuffer(b)).(lock := Producer(p));
    PcOf(s, p);
    InstallMoveSlots(s, s', p);
    InstallMovePcs(s, s', p);
    assert Spinners(s') == Spinners(s);
  }

  lemma PushBufferKeeps(s: State, p: nat, b: nat)
    requires Inv(s) && p < |s.pcs| && s.pcs[p] == PushBuffer(b)
    ensures Inv(DoPushBuffer(s, p, b))
  {
    hide LinesOf, Position, SlotsInv, SlotInv, FinishedInv, OrderInv, AllSlots, OutInv, PcsInv;
    var s' := DoPushBuffer(s, p, b);
    PcOf(s, p);
    InstallMoveSlots(s, s', p);
    InstallMovePcs(s, s', p);
    assert Spinners(s') == Spinners(s);
  }

  lemma ResetIndexKeeps(s: State, p: nat)
    requires Inv(s) && p < |s.pcs| && s.pcs[p] == ResetIndex
    ensures Inv(SetPc(s, p, UnlockQueue).(writeIndex := 0, installer := None))
  {
    hide LinesOf, Position, SlotsInv, SlotInv, FinishedInv, OrderInv, OutInv, PcsInv;
    var s' := SetPc(s, p, UnlockQueue).(writeIndex := 0, installer := None);
    PcOf(s, p);
    InstallMoveSlots(s, s', p);
    InstallMovePcs(s, s', p);
    assert 0 in AllSlots(s.size);
  }

  lemma UnlockQueueKeeps(s: State, p: nat)
    requires Inv(s) && p < |s.pcs| && s.pcs[p] == UnlockQueue
    ensures Inv(DoUnlock(s, p))
  {
    hide LinesOf, Position, SlotsInv, SlotInv, FinishedInv, OrderInv, AllSlots, OutInv, PcsInv;
    var s' := DoUnlock(s, p);
    PcOf(s, p);
    InstallMoveSlots(s, s', p);
    InstallMovePcs(s, s', p);
    assert Spinners(s') == Spinners(s);
  }

  /** Whatever a producer does next keeps the invariant. */
  lemma StepKeeps(s: State, p: nat)
    requires Inv(s) && p < |s.pcs|
    ensures Inv(DoStep(s, p))
  {
    hide ClaimsInv, PhaseInv, FinishedInv, SlotsInv, PcsInv, IndexInv, QueueInv, ReaderInv, OutInv, OrderInv,
         DoTakeTicket, DoWriteItem, DoStoreState, DoCountItem, DoNewBuffer, DoPushBuffer, DoUnlock;
    match s.pcs[p]
    case Idle =>
    case TakeTicket(line) =>
      if s.writeIndex < s.size { EarlyTicketKeeps(s, p, line); } else { LateTicketKeeps(s, p, line); }
    case LoadBuffer(line, t) => LoadBufferKeeps(s, p, line, t);
    case WriteItem(line, t, b) => WriteItemKeeps(s, p, line, t, b);
    case StoreState(t, b) => StoreStateKeeps(s, p, t, b);
    case CountItem(t, b) => CountItemKeeps(s, p, t, b);
    case NewBuffer => NewBufferKeeps(s, p);
    case LockQueue(b) => if s.lock == Nobody { LockQueueKeeps(s, p, b); }
    case PushBuffer(b) => PushBufferKeeps(s, p, b);
    case ResetIndex => ResetIndexKeeps(s, p);
    case UnlockQueue => UnlockQueueKeeps(s, p);
    case SpinWait(line) => if s.writeIndex < s.size { SpinWaitKeeps(s, p, line); }
  }

  // ------------------------------------------------------------- consumer steps

  /** Consumer steps that neither deliver nor pop. */
  predicate ReaderMove(s: State, s': State) {
    s' == s.(reader := s'.reader, lock := s'.lock, readBuffer := s'.readBuffer)
  }

  lemma ReaderMoveSlots(s: State, s': State)
    requires Inv(s) && ReaderMove(s, s')
    ensures ShapeInv(s') && SlotsInv(s') && ClaimsInv(s') && PhaseInv(s') && FinishedInv(s')
  {
    hide LinesOf, Position, AllSlots, Installing, PcsInv, OrderInv, IndexInv, QueueInv, ReaderInv, OutInv;
    forall b, t | 0 <= b < |s.buffers| && 0 <= t < s.size ensures SlotInv(s', b, t) {
      assert SlotInv(s, b, t);
    }
  }

  lemma ReaderMovePcs(s: State, s': State)
    requires Inv(s) && ReaderMove(s, s')
    requires s'.lock == s.lock || s.lock == Nobody || s.lock == Consumer
    ensures ShapeInv(s') && PcsInv(s')
  {
    hide LinesOf, Position, AllSlots, Installing, SlotsInv, ClaimsInv, PhaseInv, FinishedInv, OrderInv, IndexInv,
         QueueInv, ReaderInv, OutInv;
    forall q | 0 <= q < |s.pcs| ensures PcInv(s', q) {
      assert PcInv(s, q);
    }
  }

  lemma ReaderMoveKeeps(s: State, s': State)
    requires Inv(s) && ReaderMove(s, s')
    requires s'.lock == s.lock || s.lock == Nobody || s.lock == Consumer
    requires ReaderInv(s') && (Popping(s') <==> Popping(s))
    ensures Inv(s')
  {
    hide LinesOf, Position, SlotsInv, PcsInv, ClaimsInv, PhaseInv, FinishedInv;
    ReaderMoveSlots(s, s');
    ReaderMovePcs(s, s');
    assert Spinners(s') == Spinners(s);
  }

  /** The buffer being read exists, and the read index is a slot of it. */
  lemma ReadSlot(s: State)
    requires Inv(s) && s.readBuffer.Some?
    ensures s.readBuffer.value == s.popped <= s.current && SlotExists(s, s.popped, s.readIndex)
    ensures !Popping(s) && |s.out| == Position(s.size, s.popped, s.readIndex)
  {
    hide LinesOf, Position, SlotsInv, SlotInv, PcsInv, PcInv, OrderInv, IndexInv, FinishedInv, PhaseInv, AllSlots,
         ClaimsInv;
  }

  lemma LoadStateKeeps(s: State)
    requires Inv(s) && s.reader == LoadState
    ensures Inv(DoLoadState(s))
  {
    hide LinesOf, Position, SlotsInv, SlotInv, PcsInv, PcInv, OrderInv, IndexInv, FinishedInv, PhaseInv, AllSlots,
         ClaimsInv, QueueInv;
    ReadSlot(s);
    ReaderMoveKeeps(s, DoLoadState(s));
  }

  lemma ReadFrontKeeps(s: State)
    requires Inv(s) && s.reader == ReadFront
    ensures Inv(DoReadFront(s))
  {
    hide LinesOf, Position, SlotsInv, SlotInv, PcsInv, PcInv, OrderInv, IndexInv, FinishedInv, PhaseInv, AllSlots,
         ClaimsInv, OutInv;
    ReaderMoveKeeps(s, DoReadFront(s));
  }

  lemma MoveItemSlot(s: State)
    requires Inv(s) && s.reader == MoveItem
    ensures s.readBuffer.Some? && s.readBuffer.value == s.popped && SlotExists(s, s.popped, s.readIndex)
    ensures |s.out| == Position(s.size, s.popped, s.readIndex) < |s.claims|
    ensures s.buffers[s.popped].items[s.readIndex] == Full(s.claims[|s.out|].line)
  {
    hide LinesOf, PcsInv, PcInv, OrderInv, IndexInv, FinishedInv, PhaseInv, AllSlots, ClaimsInv;
    ReadSlot(s);
    assert SlotInv(s, s.popped, s.readIndex);
  }

  /** Positions of distinct slots differ. */
  lemma PositionInjective(size: nat, b: nat, t: nat, c: nat, u: nat)
    requires t < size && u < size && Position(size, b, t) == Position(size, c, u)
    ensures b == c && t == u
  {
    if b < c {
      PositionOrder(size, b, c);
    } else if c < b {
      PositionOrder(size, c, b);
    }
  }

  lemma MoveItemSlots(s: State)
    requires Inv(s) && s.reader == MoveItem
    ensures ShapeInv(DoMoveItem(s)) && SlotsInv(DoMoveItem(s))
  {
    hide LinesOf, Position, PcsInv, PcInv, OrderInv, IndexInv, FinishedInv, PhaseInv, AllSlots, ClaimsInv,
         QueueInv, OutInv;
    MoveItemSlot(s);
    var s' := DoMoveItem(s);
    forall b, t | 0 <= b < |s.buffers| && 0 <= t < s.size ensures SlotInv(s', b, t) {
      assert SlotInv(s, b, t);
      if Position(s.size, b, t) == |s.out| {
        PositionInjective(s.size, b, t, s.popped, s.readIndex);
      }
    }
  }

  lemma MoveItemRest(s: State)
    requires Inv(s) && s.reader == MoveItem && ShapeInv(DoMoveItem(s))
    ensures var s' := DoMoveItem(s);
            && !s'.fault && ClaimsInv(s') && PhaseInv(s') && FinishedInv(s') && IndexInv(s')
            && QueueInv(s') && OrderInv(s') && ReaderInv(s')
  {
    hide LinesOf, Position, SlotsInv, SlotInv, PcsInv, PcInv, AllSlots, OutInv;
    MoveItemSlot(s);
    assert Spinners(DoMoveItem(s)) == Spinners(s);
  }

  lemma MoveItemOut(s: State)
    requires Inv(s) && s.reader == MoveItem && ShapeInv(DoMoveItem(s))
    ensures OutInv(DoMoveItem(s)) && PcsInv(DoMoveItem(s))
  {
    hide LinesOf, SlotsInv, SlotInv, AllSlots, PhaseInv, FinishedInv, OrderInv, IndexInv, QueueInv, ClaimsInv;
    MoveItemSlot(s);
    var s' := DoMoveItem(s);
    forall q | 0 <= q < |s.pcs| ensures PcInv(s', q) {
      assert PcInv(s, q);
    }
  }

  lemma MoveItemKeeps(s: State)
    requires Inv(s) && s.reader == MoveItem
    ensures Inv(DoMoveItem(s))
  {
    hide ClaimsInv, PhaseInv, FinishedInv, SlotsInv, PcsInv, IndexInv, QueueInv, ReaderInv, OutInv, OrderInv,
         DoMoveItem;
    MoveItemSlots(s);
    MoveItemRest(s);
    MoveItemOut(s);
  }

  lemma PopFrontKeeps(s: State)
    requires Inv(s) && s.reader == PopFront
    ensures Inv(DoPopFront(s))
  {
    hide LinesOf, AllSlots, Installing;
    var s' := DoPopFront(s);
    assert Spinners(s') == Spinners(s);
    assert Position(s.size, s.popped, s.size) == Position(s.size, s.popped + 1, 0);
    forall b, t | 0 <= b < |s.buffers| && 0 <= t < s.size ensures SlotInv(s', b, t) {
      assert SlotInv(s, b, t);
    }
    forall q | 0 <= q < |s.pcs| ensures PcInv(s', q) {
      assert PcInv(s, q);
    }
  }

  /** Whatever the consumer does next keeps the invariant. */
  lemma ReadKeeps(s: State)
    requires Inv(s)
    ensures Inv(DoRead(s))
  {
    hide ClaimsInv, PhaseInv, FinishedInv, SlotsInv, PcsInv, IndexInv, QueueInv, OutInv, OrderInv,
         DoReadFront, DoLoadState, DoMoveItem, DoPopFront;
    match s.reader
    case Start => ReaderMoveKeeps(s, DoRead(s));
    case LockFront => if s.lock == Nobody { ReaderMoveKeeps(s, DoRead(s)); }
    case ReadFront => ReadFrontKeeps(s);
    case UnlockFront => ReaderMoveKeeps(s, DoRead(s));
    case LoadState => LoadStateKeeps(s);
    case MoveItem => MoveItemKeeps(s);
    case LockPop => if s.lock == Nobody { ReaderMoveKeeps(s, DoRead(s)); }
    case PopFront => PopFrontKeeps(s);
    case UnlockPop => ReaderMoveKeeps(s, DoRead(s));
  }

  // ------------------------------------------------------------------ every run

  /** Every interleaving of any number of producers with the consumer keeps the invariant. */
  lemma {:induction false} EveryRun(size: nat, producers: nat, schedule: seq<Action>)
    requires size > 0 && size + producers < TWO_32
    ensures Inv(Exec(Init(size, producers), schedule))
    decreases |schedule|
  {
    hide Inv;
    if schedule == [] {
      InitInv(size, producers);
    } else {
      var before := schedule[..|schedule| - 1];
      EveryRun(size, producers, before);
      var s := Exec(Init(size, producers), before);
      match schedule[|schedule| - 1]
      case Push(p, line) => if p < |s.pcs| { PushKeeps(s, p, line); }
      case Step(p) => if p < |s.pcs| { StepKeeps(s, p); }
      case Read => ReadKeeps(s);
    }
  }
}
