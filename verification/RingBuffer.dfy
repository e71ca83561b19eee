// The lossy log queue of example/log/Log.cpp: a ring of items, each guarded by
// its own spin lock.  Producers overwrite what the consumer has not read yet.
//
// As in module QueueBuffer a state is a value and every access to shared memory
// is one step.  `fault` records an access without the item's lock, a double
// unlock, or the delivery of a line that is not there.
module RingBuffer {
  import opened Machine
  import opened Threads

  type Line = string

  /** One item: its lock, its `written` mark, and the line stored in it (None: none yet, or moved out). */
  datatype Item = Item(flag: Owner, written: bool, line: Option<Line>)

  /** Where a producer is inside push(). */
  datatype ProducerPc =
    | Idle
    | TakeTicket(line: Line)              // _write_index.fetch_add(1) % _size
    | LockItem(line: Line, index: nat)    // acquire item.flag
    | StoreLine(line: Line, index: nat)   // item.logline = line
    | SetWritten(index: nat)              // item.written = 1
    | UnlockItem(index: nat)              // release item.flag

  /** Where the consumer is inside try_pop(). */
  datatype ReaderPc =
    | Start                               // acquire the flag of item _read_index % _size
    | TestWritten(index: nat)             // if (item.written == 1)
    | MoveLine(index: nat)                // logline = item.logline
    | ClearWritten(index: nat)            // item.written = 0
    | AdvanceIndex(index: nat)            // ++_read_index
    | ReleaseItem(index: nat)             // release item.flag

  datatype State = State(
    size: nat,
    ring: seq<Item>,
    writeIndex: nat,                      // a size_t
    readIndex: nat,                       // an unsigned int
    pcs: seq<ProducerPc>,
    reader: ReaderPc,
    fault: bool,
    // history
    drawn: seq<Line>,                     // by ticket number: the line it was drawn for
    drawer: seq<nat>,                     // by ticket number: the producer
    lastTicket: seq<nat>,                 // by producer: its latest ticket number
    storedTickets: set<nat>,              // tickets whose line has been stored
    slotTicket: seq<nat>,                 // by item: the ticket whose line was stored last
    stored: seq<Line>,                    // lines stored, in the order of storing
    completed: nat,                       // pushes that have marked their item written
    overwritten: seq<Line>,               // lines replaced before the consumer read them
    out: seq<Line>)                       // lines delivered

  datatype Action = Push(producer: nat, line: Line) | Step(producer: nat) | Read

  function Init(size: nat, producers: nat): State {
    State(size, seq(size, _ => Item(Nobody, false, None)), 0, 0,
          seq(producers, _ => Idle), Start, false,
          [], [], seq(producers, _ => 0), {}, seq(size, _ => 0), [], 0, [], [])
  }

  predicate Sized(s: State) {
    |s.pcs| == |s.lastTicket| && |s.ring| == |s.slotTicket| == s.size && s.size > 0
  }

  predicate SameThreads(s: State, s': State) {
    Sized(s') && |s'.pcs| == |s.pcs| && s'.size == s.size
  }

  function SetPc(s: State, p: nat, pc: ProducerPc): State
    requires p < |s.pcs|
  {
    s.(pcs := s.pcs[p := pc])
  }

  predicate Owns(s: State, index: nat, owner: Owner) {
    index < |s.ring| && s.ring[index].flag == owner
  }

  // --------------------------------------------------------------- producer steps

  function DoPush(s: State, p: nat, line: Line): (s': State)
    requires Sized(s) && p < |s.pcs|
    ensures SameThreads(s, s')
  {
    if s.pcs[p] != Idle then s else SetPc(s, p, TakeTicket(line))
  }

  function DoTakeTicket(s: State, p: nat, line: Line): State
    requires Sized(s) && p < |s.pcs|
  {
    SetPc(s, p, LockItem(line, s.writeIndex % s.size)).(
      writeIndex := (s.writeIndex + 1) % TWO_64,
      drawn := s.drawn + [line],
      drawer := s.drawer + [p],
      lastTicket := s.lastTicket[p := |s.drawn|])
  }

  function DoLockItem(s: State, p: nat, line: Line, i: nat): State
    requires Sized(s) && p < |s.pcs|
  {
    if i >= |s.ring| then s.(fault := true)
    else if s.ring[i].flag != Nobody then s
    else SetPc(s, p, StoreLine(line, i)).(ring := s.ring[i := s.ring[i].(flag := Producer(p))])
  }

  function DoStoreLine(s: State, p: nat, line: Line, i: nat): State
    requires Sized(s) && p < |s.pcs|
  {
    if !Owns(s, i, Producer(p)) then s.(fault := true)
    else
      SetPc(s, p, SetWritten(i)).(
        ring := s.ring[i := s.ring[i].(line := Some(line))],
        overwritten := if s.ring[i].line.Some? then s.overwritten + [s.ring[i].line.value] else s.overwritten,
        stored := s.stored + [line],
        storedTickets := s.storedTickets + {s.lastTicket[p]},
        slotTicket := s.slotTicket[i := s.lastTicket[p]])
  }

  function DoSetWritten(s: State, p: nat, i: nat): State
    requires Sized(s) && p < |s.pcs|
  {
    if !Owns(s, i, Producer(p)) then s.(fault := true)
    else SetPc(s, p, UnlockItem(i)).(ring := s.ring[i := s.ring[i].(written := true)], completed := s.completed + 1)
  }

  function DoUnlockItem(s: State, p: nat, i: nat): State
    requires Sized(s) && p < |s.pcs|
  {
    if !Owns(s, i, Producer(p)) then s.(fault := true)
    else SetPc(s, p, Idle).(ring := s.ring[i := s.ring[i].(flag := Nobody)])
  }

  function DoStep(s: State, p: nat): (s': State)
    requires Sized(s) && p < |s.pcs|
    ensures SameThreads(s, s')
  {
    match s.pcs[p]
    case Idle => s
    case TakeTicket(line) => DoTakeTicket(s, p, line)
    case LockItem(line, i) => DoLockItem(s, p, line, i)
    case StoreLine(line, i) => DoStoreLine(s, p, line, i)
    case SetWritten(i) => DoSetWritten(s, p, i)
    case UnlockItem(i) => DoUnlockItem(s, p, i)
  }

  // --------------------------------------------------------------- consumer steps

  function DoStart(s: State): State
    requires Sized(s)
  {
    var i := s.readIndex % s.size;
    if s.ring[i].flag != Nobody then s
    else s.(reader := TestWritten(i), ring := s.ring[i := s.ring[i].(flag := Consumer)])
  }

  function DoMoveLine(s: State, i: nat): State
    requires Sized(s)
  {
    if !Owns(s, i, Consumer) || s.ring[i].line == None then s.(fault := true)
    else
      s.(reader := ClearWritten(i), ring := s.ring[i := s.ring[i].(line := None)],
         out := s.out + [s.ring[i].line.value])
  }

  function DoRead(s: State): (s': State)
    requires Sized(s)
    ensures SameThreads(s, s')
  {
    match s.reader
    case Start => DoStart(s)
    case TestWritten(i) =>
      if !Owns(s, i, Consumer) then s.(fault := true)
      else s.(reader := if s.ring[i].written then MoveLine(i) else ReleaseItem(i))
    case MoveLine(i) => DoMoveLine(s, i)
    case ClearWritten(i) =>
      if !Owns(s, i, Consumer) then s.(fault := true)
      else s.(reader := AdvanceIndex(i), ring := s.ring[i := s.ring[i].(written := false)])
    case AdvanceIndex(i) => s.(reader := ReleaseItem(i), readIndex := (s.readIndex + 1) % TWO_32)
    case ReleaseItem(i) =>
      if !Owns(s, i, Consumer) then s.(fault := true)
      else s.(reader := Start, ring := s.ring[i := s.ring[i].(flag := Nobody)])
  }

  function Apply(s: State, a: Action): (s': State)
    requires Sized(s)
    ensures SameThreads(s, s')
  {
    match a
    case Push(p, line) => if p < |s.pcs| then DoPush(s, p, line) else s
    case Step(p) => if p < |s.pcs| then DoStep(s, p) else s
    case Read => DoRead(s)
  }

  /** The state after an interleaving. */
  function Exec(s: State, schedule: seq<Action>): (s': State)
    requires Sized(s)
    ensures SameThreads(s, s')
    decreases |schedule|
  {
    if schedule == [] then s
    else Apply(Exec(s, schedule[..|schedule| - 1]), schedule[|schedule| - 1])
  }
}
