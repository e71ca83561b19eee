// The guaranteed log queue of example/log/Log.cpp: any number of producers push
// lines through an atomic ticket counter, one consumer pops them.
//
// A state of the system is a value; every atomic operation of the code is one step.
// Pointers to buffers are modelled by their index in order of allocation, and
// buffers are never reclaimed.  Accesses the code must not make (a slot outside a
// buffer, an unwritten or moved-from item, a pop from an empty queue, an unlock by a
// thread that does not hold the lock) raise `fault`.
module QueueBuffer {
  import opened Machine
  import opened Threads

  type Line = string

  datatype Slot = Empty | Full(line: Line) | MovedFrom

  /** class Buffer: `size` items, their write states, and the number of completed writes. */
  datatype Buffer = Buffer(items: seq<Slot>, writeState: seq<bool>, writeCount: nat)

  /** Where a producer is inside push() and setup_next_write_buffer(). */
  datatype ProducerPc =
    | Idle
    | TakeTicket(line: Line)                              // fetch_add on _write_index
    | LoadBuffer(line: Line, ticket: nat)                 // load _current_write_buffer
    | WriteItem(line: Line, ticket: nat, buffer: nat)     // placement new of the item
    | StoreState(ticket: nat, buffer: nat)                // _write_state[ticket] = 1
    | CountItem(ticket: nat, buffer: nat)                 // fetch_add on _write_state[size]
    | NewBuffer                                           // allocate, store _current_write_buffer
    | LockQueue(buffer: nat)                              // acquire _flags
    | PushBuffer(buffer: nat)                             // _buffers.push
    | ResetIndex                                          // _write_index = 0
    | UnlockQueue                                         // release _flags
    | SpinWait(line: Line)                                // while (_write_index >= size)

  /** Where the consumer is inside try_pop() and get_next_read_buffer(). */
  datatype ReaderPc =
    | Start | LockFront | ReadFront | UnlockFront | LoadState | MoveItem | LockPop | PopFront | UnlockPop

  /** A ticket below `size`: who drew it, for which line, while which buffer was current. */
  datatype Claim = Claim(producer: nat, line: Line, buffer: nat, slot: nat)

  datatype State = State(
    size: nat,
    buffers: seq<Buffer>,            // allocation order
    current: nat,                    // _current_write_buffer
    writeIndex: nat,                 // _write_index, an unsigned int
    queue: seq<nat>,                 // _buffers
    lock: Owner,                     // _flags
    readBuffer: Option<nat>,         // _current_read_buffer
    readIndex: nat,                  // _read_index
    pcs: seq<ProducerPc>,
    reader: ReaderPc,
    fault: bool,
    // history, never read by a step to decide what the code does
    pushed: seq<seq<Line>>,          // per producer: the lines of its push() calls, in program order
    claims: seq<Claim>,              // tickets below size, in the order they were drawn
    lastClaim: seq<nat>,             // per producer: index of its latest claim
    finished: seq<set<nat>>,         // per buffer: slots whose producer has counted them
    installer: Option<nat>,          // the producer between completing a buffer and resetting the index
    popped: nat,                     // buffers removed from the queue
    out: seq<Line>)                  // lines delivered by try_pop

  datatype Action =
    | Push(producer: nat, line: Line)   // a producer calls push
    | Step(producer: nat)               // a producer performs its next atomic operation
    | Read                              // the consumer performs its next atomic operation

  function NewItems(size: nat): (b: Buffer)
    ensures |b.items| == |b.writeState| == size && b.writeCount == 0
    ensures forall t :: 0 <= t < size ==> b.items[t] == Empty && !b.writeState[t]
  {
    Buffer(seq(size, _ => Empty), seq(size, _ => false), 0)
  }

  /** The constructed queue: one buffer, installed and queued. */
  function Init(size: nat, producers: nat): State {
    State(size, [NewItems(size)], 0, 0, [0], Nobody, None, 0,
          seq(producers, _ => Idle), Start, false,
          seq(producers, _ => []), [], seq(producers, _ => 0), [{}], None, 0, [])
  }

  /** Every producer has a program counter and a history. */
  predicate Sized(s: State) {
    |s.pcs| == |s.pushed| == |s.lastClaim|
  }

  predicate SameThreads(s: State, s': State) {
    Sized(s') && |s'.pcs| == |s.pcs| && s'.size == s.size
  }

  // ------------------------------------------------------------ producer steps

  function SetPc(s: State, p: nat, pc: ProducerPc): State
    requires p < |s.pcs|
  {
    s.(pcs := s.pcs[p := pc])
  }

  predicate SlotExists(s: State, b: nat, t: nat) {
    && b < |s.buffers| && b < |s.finished|
    && t < |s.buffers[b].items| && t < |s.buffers[b].writeState|
  }

  function DoTakeTicket(s: State, p: nat, line: Line): State
    requires Sized(s) && p < |s.pcs|
  {
    var t := s.writeIndex;
    var s' := s.(writeIndex := (t + 1) % TWO_32);
    if t < s.size then
      SetPc(s', p, LoadBuffer(line, t)).(
        claims := s.claims + [Claim(p, line, s.current, t)],
        lastClaim := s.lastClaim[p := |s.claims|])
    else
      SetPc(s', p, SpinWait(line))
  }

  function DoWriteItem(s: State, p: nat, line: Line, t: nat, b: nat): State
    requires Sized(s) && p < |s.pcs|
  {
    if !SlotExists(s, b, t) then s.(fault := true)
    else
      var buffer := s.buffers[b];
      SetPc(s, p, StoreState(t, b)).(buffers := s.buffers[b := buffer.(items := buffer.items[t := Full(line)])])
  }

  function DoStoreState(s: State, p: nat, t: nat, b: nat): State
    requires Sized(s) && p < |s.pcs|
  {
    if !SlotExists(s, b, t) then s.(fault := true)
    else
      var buffer := s.buffers[b];
      SetPc(s, p, CountItem(t, b)).(buffers := s.buffers[b := buffer.(writeState := buffer.writeState[t := true])])
  }

  /** The producer whose increment reaches `size` installs the next buffer. */
  function DoCountItem(s: State, p: nat, t: nat, b: nat): State
    requires Sized(s) && p < |s.pcs|
  {
    if !SlotExists(s, b, t) then s.(fault := true)
    else
      var buffer := s.buffers[b];
      var s' := s.(buffers := s.buffers[b := buffer.(writeCount := buffer.writeCount + 1)],
                   finished := s.finished[b := s.finished[b] + {t}]);
      if buffer.writeCount + 1 == s.size then SetPc(s', p, NewBuffer).(installer := Some(p))
      else SetPc(s', p, Idle)
  }

  function DoNewBuffer(s: State, p: nat): State
    requires Sized(s) && p < |s.pcs|
  {
    SetPc(s, p, LockQueue(|s.buffers|)).(
      buffers := s.buffers + [NewItems(s.size)],
      finished := s.finished + [{}],
      current := |s.buffers|)
  }

  function DoPushBuffer(s: State, p: nat, b: nat): State
    requires Sized(s) && p < |s.pcs|
  {
    if s.lock != Producer(p) then s.(fault := true)
    else SetPc(s, p, ResetIndex).(queue := s.queue + [b])
  }

  function DoUnlock(s: State, p: nat): State
    requires Sized(s) && p < |s.pcs|
  {
    if s.lock != Producer(p) then s.(fault := true)
    else SetPc(s, p, Idle).(lock := Nobody)
  }

  /** The next atomic operation of producer `p`; a spinning thread may find nothing changed. */
  function DoStep(s: State, p: nat): (s': State)
    requires Sized(s) && p < |s.pcs|
    ensures SameThreads(s, s')
  {
    match s.pcs[p]
    case Idle => s
    case TakeTicket(line) => DoTakeTicket(s, p, line)
    case LoadBuffer(line, t) => SetPc(s, p, WriteItem(line, t, s.current))
    case WriteItem(line, t, b) => DoWriteItem(s, p, line, t, b)
    case StoreState(t, b) => DoStoreState(s, p, t, b)
    case CountItem(t, b) => DoCountItem(s, p, t, b)
    case NewBuffer => DoNewBuffer(s, p)
    case LockQueue(b) => if s.lock == Nobody then SetPc(s, p, PushBuffer(b)).(lock := Producer(p)) else s
    case PushBuffer(b) => DoPushBuffer(s, p, b)
    case ResetIndex => SetPc(s, p, UnlockQueue).(writeIndex := 0, installer := None)
    case UnlockQueue => DoUnlock(s, p)
    case SpinWait(line) => if s.writeIndex >= s.size then s else SetPc(s, p, TakeTicket(line))
  }

  function DoPush(s: State, p: nat, line: Line): (s': State)
    requires Sized(s) && p < |s.pcs|
    ensures SameThreads(s, s')
  {
    if s.pcs[p] != Idle then s
    else SetPc(s, p, TakeTicket(line)).(pushed := s.pushed[p := s.pushed[p] + [line]])
  }

  // ------------------------------------------------------------- consumer steps

  function DoReadFront(s: State): State {
    if s.lock != Consumer then s.(fault := true)
    else s.(reader := UnlockFront, readBuffer := if s.queue == [] then None else Some(s.queue[0]))
  }

  function DoLoadState(s: State): State {
    if s.readBuffer == None || !SlotExists(s, s.readBuffer.value, s.readIndex) then s.(fault := true)
    else if s.buffers[s.readBuffer.value].writeState[s.readIndex] then s.(reader := MoveItem)
    else s.(reader := Start)
  }

  function DoMoveItem(s: State): State {
    if s.readBuffer == None || !SlotExists(s, s.readBuffer.value, s.readIndex) then s.(fault := true)
    else
      var b, t := s.readBuffer.value, s.readIndex;
      var buffer := s.buffers[b];
      if !buffer.items[t].Full? then s.(fault := true)
      else
        var s' := s.(buffers := s.buffers[b := buffer.(items := buffer.items[t := MovedFrom])],
                     out := s.out + [buffer.items[t].line]);
        if t + 1 == s.size then s'.(readIndex := 0, readBuffer := None, reader := LockPop)
        else s'.(readIndex := t + 1, reader := Start)
  }

  function DoPopFront(s: State): State {
    if s.lock != Consumer || s.queue == [] then s.(fault := true)
    else s.(queue := s.queue[1..], popped := s.popped + 1, reader := UnlockPop)
  }

  function DoRelease(s: State, next: ReaderPc): State {
    if s.lock != Consumer then s.(fault := true) else s.(lock := Nobody, reader := next)
  }

  /** The next atomic operation of the consumer. */
  function DoRead(s: State): (s': State)
    requires Sized(s)
    ensures SameThreads(s, s')
  {
    match s.reader
    case Start => s.(reader := if s.readBuffer == None then LockFront else LoadState)
    case LockFront => if s.lock == Nobody then s.(lock := Consumer, reader := ReadFront) else s
    case ReadFront => DoReadFront(s)
    case UnlockFront => DoRelease(s, if s.readBuffer == None then Start else LoadState)
    case LoadState => DoLoadState(s)
    case MoveItem => DoMoveItem(s)
    case LockPop => if s.lock == Nobody then s.(lock := Consumer, reader := PopFront) else s
    case PopFront => DoPopFront(s)
    case UnlockPop => DoRelease(s, Start)
  }

  function Apply(s: State, a: Action): (s': State)
    requires Sized(s)
    ensures SameThreads(s, s')
  {
    match a
    case Push(p, line) => if p < |s.pcs| then DoPush(s, p, line) else s
    case Step(p) => if p < |s.pcs| then DoStep(s, p) else s
    case Read => DoRead(s)
  }

  /** The state after an interleaving, given as the sequence of who moves next. */
  function Exec(s: State, schedule: seq<Action>): (s': State)
    requires Sized(s)
    ensures SameThreads(s, s')
    decreases |schedule|
  {
    if schedule == [] then s
    else Apply(Exec(s, schedule[..|schedule| - 1]), schedule[|schedule| - 1])
  }
}
