// The three zones of net::Buffer (mengSen/net/Buffer.h): prependable, readable,
// writable; how each operation moves their borders, and how large the vector gets.
module BufferLayout {
  import opened Machine

  const CHEAP_PREPEND: nat := 8
  const INITIAL_SIZE: nat := 1024
  const EXTRA_BUFFER: nat := 65536

  datatype Layout = Layout(size: nat, reader: nat, writer: nat) {
    predicate Proper() {
      reader <= writer <= size && CHEAP_PREPEND <= size
    }

    function Readable(): nat
      requires Proper()
    {
      writer - reader
    }

    function Writable(): nat
      requires Proper()
    {
      size - writer
    }
  }

  function Start(initialSize: nat): Layout {
    Layout(initialSize + CHEAP_PREPEND, CHEAP_PREPEND, CHEAP_PREPEND)
  }

  /** makeSpace resizes the vector only if moving the data to the front would not help. */
  predicate Grows(l: Layout, len: nat)
    requires l.Proper()
  {
    l.Writable() + l.reader < len + CHEAP_PREPEND
  }

  function MakeSpace(l: Layout, len: nat): Layout
    requires l.Proper() && l.Writable() < len
  {
    if Grows(l, len) then l.(size := l.writer + len)
    else Layout(l.size, CHEAP_PREPEND, CHEAP_PREPEND + l.Readable())
  }

  function EnsureWritable(l: Layout, len: nat): Layout
    requires l.Proper()
  {
    if l.Writable() < len then MakeSpace(l, len) else l
  }

  function Retrieve(l: Layout, len: nat): Layout
    requires l.Proper() && len <= l.Readable()
  {
    if len < l.Readable() then l.(reader := l.reader + len)
    else l.(reader := CHEAP_PREPEND, writer := CHEAP_PREPEND)
  }

  // ------------------------------------------------------------- runs of operations

  datatype Op =
    | Append(len: nat)
    | Reserve(len: nat)          // ensureWritableBytes
    | Written(len: nat)          // hasWritten
    | Unwrite(len: nat)
    | Take(len: nat)             // retrieve
    | Prepend(len: nat)
    | Receive(n: nat)            // readFd, n bytes delivered

  /** The most that readv can deliver. */
  function ReceiveLimit(l: Layout): nat
    requires l.Proper()
  {
    l.Writable() + if l.Writable() < EXTRA_BUFFER then EXTRA_BUFFER else 0
  }

  /** What the operation's assert asks of its caller. */
  predicate Allowed(l: Layout, op: Op)
    requires l.Proper()
  {
    match op
    case Append(_) => true
    case Reserve(_) => true
    case Written(len) => len <= l.Writable()
    case Unwrite(len) => len <= l.Readable()
    case Take(len) => len <= l.Readable()
    case Prepend(len) => len <= l.reader
    case Receive(n) => n <= ReceiveLimit(l)
  }

  function AppendTo(l: Layout, len: nat): Layout
    requires l.Proper()
  {
    var r := EnsureWritable(l, len);
    r.(writer := r.writer + len)
  }

  function ReceiveInto(l: Layout, n: nat): Layout
    requires l.Proper()
  {
    if n <= l.Writable() then l.(writer := l.writer + n)
    else AppendTo(l.(writer := l.size), n - l.Writable())
  }

  function Step(l: Layout, op: Op): Layout
    requires l.Proper()
  {
    if !Allowed(l, op) then l
    else
      match op
      case Append(len) => AppendTo(l, len)
      case Reserve(len) => EnsureWritable(l, len)
      case Written(len) => l.(writer := l.writer + len)
      case Unwrite(len) => l.(writer := l.writer - len)
      case Take(len) => Retrieve(l, len)
      case Prepend(len) => l.(reader := l.reader - len)
      case Receive(n) => ReceiveInto(l, n)
  }

  /** What the operation asks ensureWritableBytes for: the request, and the data present at that time. */
  function Request(l: Layout, op: Op): nat
    requires l.Proper()
  {
    match op
    case Append(len) => len
    case Reserve(len) => len
    case Receive(n) => if Allowed(l, op) && n > l.Writable() then n - l.Writable() else 0
    case _ => 0
  }

  function Need(l: Layout, op: Op): nat
    requires l.Proper()
  {
    match op
    case Append(len) => l.Readable() + len
    case Reserve(len) => l.Readable() + len
    case Receive(n) => if Allowed(l, op) && n > l.Writable() then l.Readable() + n else 0
    case _ => 0
  }

  /** A buffer with the largest need and the largest request it has met. */
  datatype Account = Account(layout: Layout, need: nat, request: nat)

  function Exec(initialSize: nat, ops: seq<Op>): (a: Account)
    ensures a.layout.Proper()
    decreases |ops|
  {
    if ops == [] then Account(Start(initialSize), 0, 0)
    else
      var a, op := Exec(initialSize, ops[..|ops| - 1]), ops[|ops| - 1];
      StepProper(a.layout, op);
      Account(Step(a.layout, op), Max(a.need, Need(a.layout, op)), Max(a.request, Request(a.layout, op)))
  }

  /** ensureWritableBytes: its closing assert, and the data keeps its length. */
  lemma EnsureWritableWorks(l: Layout, len: nat)
    requires l.Proper()
    ensures var r := EnsureWritable(l, len);
            r.Proper() && r.Writable() >= len && r.Readable() == l.Readable() && r.size >= l.size
  {
  }

  lemma StepProper(l: Layout, op: Op)
    requires l.Proper()
    ensures Step(l, op).Proper()
  {
    match op
    case Append(len) => EnsureWritableWorks(l, len);
    case Reserve(len) => EnsureWritableWorks(l, len);
    case Receive(n) =>
      if n > l.Writable() {
        EnsureWritableWorks(l.(writer := l.size), n - l.Writable());
      }
    case _ =>
  }

  /** When the data is moved to the front, it really moves down: the assert in makeSpace. */
  lemma CompactionMovesDown(l: Layout, len: nat)
    requires l.Proper() && l.Writable() < len && !Grows(l, len)
    ensures CHEAP_PREPEND < l.reader
  {
  }

  /** A growing vector stays below need + request + 8: the prependable zone was smaller than that. */
  lemma GrowthBound(l: Layout, len: nat)
    requires l.Proper()
    ensures var r := EnsureWritable(l, len);
            r.size == l.size || r.size <= l.Readable() + len + len + CHEAP_PREPEND - 1
  {
  }

  lemma StepBound(l: Layout, op: Op)
    requires l.Proper()
    ensures Step(l, op).size == l.size || Step(l, op).size <= Need(l, op) + Request(l, op) + CHEAP_PREPEND - 1
  {
    match op
    case Append(len) => GrowthBound(l, len);
    case Reserve(len) => GrowthBound(l, len);
    case Receive(n) =>
      if n > l.Writable() {
        GrowthBound(l.(writer := l.size), n - l.Writable());
      }
    case _ =>
  }

  /** Over any run without shrink, the vector never exceeds max(initial + 8, M + L + 7). */
  lemma {:induction false} SizeBound(initialSize: nat, ops: seq<Op>)
    ensures var a := Exec(initialSize, ops);
            a.layout.size <= Max(initialSize + CHEAP_PREPEND, a.need + a.request + CHEAP_PREPEND - 1)
    decreases |ops|
  {
    hide Step, Need, Request;
    if ops != [] {
      SizeBound(initialSize, ops[..|ops| - 1]);
      StepBound(Exec(initialSize, ops[..|ops| - 1]).layout, ops[|ops| - 1]);
    }
  }
}
