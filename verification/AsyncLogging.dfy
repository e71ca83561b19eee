// The double-buffered logger of mengSen/base/AsyncLogging.cpp: front ends append
// lines to buffers they own under the lock, one back end swaps the filled buffers
// out, writes them and recycles two of them.
//
// A std::unique_ptr is a Pointer: moving from it leaves Null behind.  `fault`
// records a failing assert or the use of a null pointer.
module AsyncLogging {
  import opened Numerals
  import opened Sequences

  const LARGE_BUFFER: nat := 4000 * 1000
  const MAX_BUFFERS: nat := 25
  const NOTICE_SIZE: nat := 256

  /** FixedBuffer: its text, and (history) the lines the text is made of. */
  datatype Buffer = Buffer(data: string, lines: seq<string>)

  datatype Pointer = Null | Owns(buffer: Buffer)

  /** threadFunc, between the accesses of one back-end round. */
  datatype BackPc =
    | Top                // the loop condition and the asserts of a round
    | Swap               // waiting for the lock, or in wait_for
    | Trim
    | Write(i: nat)
    | Refill1
    | Refill2
    | Done

  /** What one swap took out, and the clock text of its notice if it was too much. */
  datatype Round = Round(buffers: seq<Pointer>, stamp: string)

  datatype State = State(
    current: Pointer,            // currentBuffer_
    next: Pointer,               // nextBuffer_
    buffers: seq<Pointer>,       // buffers_
    running: bool,               // running_
    pc: BackPc,
    spare1: Pointer,             // newBuffer1
    spare2: Pointer,             // newBuffer2
    toWrite: seq<Pointer>,       // buffersToWrite
    output: string,              // what the log file has been given
    fault: bool,
    // history
    lines: seq<string>,          // every argument of append, in lock order
    rounds: seq<Round>)          // every swap, in order

  datatype Action = Append(line: string) | Stop | Back(stamp: string)

  const EMPTY: Pointer := Owns(Buffer("", []))

  const INIT: State := State(EMPTY, EMPTY, [], true, Top, EMPTY, EMPTY, [], "", false, [], [])

  // -------------------------------------------------------------------- front end

  function Avail(b: Buffer): int {
    LARGE_BUFFER - |b.data|
  }

  /** FixedBuffer::append */
  function AppendTo(b: Buffer, line: string): Buffer {
    if Avail(b) > |line| then Buffer(b.data + line, b.lines + [line]) else b
  }

  function DoAppend(s0: State, line: string): State {
    var s := s0.(lines := s0.lines + [line]);
    if s.current.Null? then s.(fault := true)
    else if Avail(s.current.buffer) > |line| then s.(current := Owns(AppendTo(s.current.buffer, line)))
    else
      var s1 := s.(buffers := s.buffers + [s.current], current := if s.next.Owns? then s.next else EMPTY, next := Null);
      s1.(current := Owns(AppendTo(s1.current.buffer, line)))
  }

  // --------------------------------------------------------------------- back end

  function DoTop(s: State): State {
    if !s.running then s.(pc := Done)
    else if s.spare1.Null? || s.spare1.buffer.data != "" || s.spare2.Null? || s.spare2.buffer.data != "" || s.toWrite != []
    then s.(fault := true)
    else s.(pc := Swap)
  }

  /** The critical section after any waiting: wait_for has given up and retaken the lock. */
  function DoSwap(s: State): State {
    var taken := s.buffers + [s.current];
    s.(buffers := s.toWrite, toWrite := taken, current := s.spare1, spare1 := Null,
       next := if s.next.Null? then s.spare2 else s.next,
       spare2 := if s.next.Null? then Null else s.spare2,
       pc := Trim, rounds := s.rounds + [Round(taken, "")])
  }

  /** snprintf into a buffer of 256 */
  function Notice(stamp: string, dropped: nat): string {
    Prefix("Dropped log messages at " + stamp + ", " + Decimal(dropped) + " larger buffers\n", NOTICE_SIZE - 1)
  }

  function DoTrim(s: State, stamp: string): State {
    if s.toWrite == [] || s.rounds == [] then s.(fault := true)
    else
      var last := |s.rounds| - 1;
      var s1 := s.(pc := Write(0), rounds := s.rounds[last := s.rounds[last].(stamp := stamp)]);
      if |s.toWrite| > MAX_BUFFERS
      then s1.(output := s.output + Notice(stamp, |s.toWrite| - 2), toWrite := s.toWrite[..2])
      else s1
  }

  function DoWrite(s: State, i: nat): State {
    if i >= |s.toWrite| then s.(pc := Refill1, toWrite := Prefix(s.toWrite, 2))
    else if s.toWrite[i].Null? then s.(fault := true)
    else s.(output := s.output + s.toWrite[i].buffer.data, pc := Write(i + 1))
  }

  /** A spare that is null takes the last of the buffers written, and is emptied. */
  function DoRefill1(s: State): State {
    var s1 := s.(pc := Refill2);
    if s.spare1.Owns? then s1
    else if s.toWrite == [] || s.toWrite[|s.toWrite| - 1].Null? then s.(fault := true)
    else s1.(spare1 := EMPTY, toWrite := s.toWrite[..|s.toWrite| - 1])
  }

  function DoRefill2(s: State): State {
    var s1 := s.(pc := Top, toWrite := []);
    if s.spare2.Owns? then s1
    else if s.toWrite == [] || s.toWrite[|s.toWrite| - 1].Null? then s.(fault := true)
    else s1.(spare2 := EMPTY)
  }

  function DoBack(s: State, stamp: string): State {
    match s.pc
    case Top => DoTop(s)
    case Swap => DoSwap(s)
    case Trim => DoTrim(s, stamp)
    case Write(i) => DoWrite(s, i)
    case Refill1 => DoRefill1(s)
    case Refill2 => DoRefill2(s)
    case Done => s
  }

  function Apply(s: State, a: Action): State {
    match a
    case Append(line) => DoAppend(s, line)
    case Stop => s.(running := false)
    case Back(stamp) => DoBack(s, stamp)
  }

  function Exec(s: State, schedule: seq<Action>): State
    decreases |schedule|
  {
    if schedule == [] then s
    else Apply(Exec(s, schedule[..|schedule| - 1]), schedule[|schedule| - 1])
  }

  // ----------------------------------------------------------- what is to be shown

  /** The lines that fit a buffer of four million bytes; append ignores the others. */
  function Kept(lines: seq<string>): seq<string>
    decreases |lines|
  {
    if lines == [] then []
    else
      var n := |lines| - 1;
      Kept(lines[..n]) + if |lines[n]| < 4_000_000 then [lines[n]] else []
  }

  function Data(p: Pointer): string {
    if p.Null? then "" else p.buffer.data
  }

  function Lines(p: Pointer): seq<string> {
    if p.Null? then [] else p.buffer.lines
  }

  function DataOf(ps: seq<Pointer>): string
    decreases |ps|
  {
    if ps == [] then "" else DataOf(ps[..|ps| - 1]) + Data(ps[|ps| - 1])
  }

  function LinesOf(ps: seq<Pointer>): seq<string>
    decreases |ps|
  {
    if ps == [] then [] else LinesOf(ps[..|ps| - 1]) + Lines(ps[|ps| - 1])
  }

  /** The lines taken out by all rounds. */
  function Taken(rounds: seq<Round>): seq<string>
    decreases |rounds|
  {
    if rounds == [] then [] else Taken(rounds[..|rounds| - 1]) + LinesOf(rounds[|rounds| - 1].buffers)
  }

  /** What the log file gets for one round: all buffers, or a notice and the first two. */
  function Written(r: Round): string {
    if |r.buffers| > MAX_BUFFERS then Notice(r.stamp, |r.buffers| - 2) + DataOf(r.buffers[..2])
    else DataOf(r.buffers)
  }

  function Output(rounds: seq<Round>): string
    decreases |rounds|
  {
    if rounds == [] then "" else Output(rounds[..|rounds| - 1]) + Written(rounds[|rounds| - 1])
  }
}
