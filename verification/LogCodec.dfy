// The tagged binary form of a log line (example/log/Log.cpp, class LogLine): arguments
// are stored as they come and turned into text only when the line is written out.
module LogCodec {
  import opened Machine
  import opened BigEndian
  import opened Fields
  import opened Numerals
  import opened Sequences

  /** One argument of operator<<; a double is its 64 bits, a literal the address of its text. */
  datatype Arg =
    | Char(c: byte)
    | U32(value: nat)
    | U64(value: nat)
    | I32(signed: int)
    | I64(signed: int)
    | Double(bits: nat)
    | Literal(address: nat)
    | Text(bytes: seq<byte>)

  datatype Header = Header(timestamp: nat, threadId: int, file: nat, function_: nat, line: nat, level: nat)

  /** How the stream prints what the model does not look into. */
  datatype Printer = Printer(double: nat -> string, literal: nat -> string, time: nat -> string)

  const STACK_BUFFER: nat := 224     // 256 bytes less two sizes, a pointer and padding
  const HEADER_SIZE: nat := 33

  // --------------------------------------------------------------------- raw memory

  /** The n bytes a little-endian machine stores for x. */
  function Store(x: int, n: nat): (bytes: seq<byte>)
    ensures |bytes| == n
  {
    Reversed(Encode(x, n))
  }

  function LoadUnsigned(bytes: seq<byte>): nat {
    Unsigned(Reversed(bytes))
  }

  function LoadSigned(bytes: seq<byte>): int {
    Signed(Reversed(bytes))
  }

  predicate FitsUnsigned(x: int, n: nat) {
    0 <= x < Power256(n)
  }

  lemma StoreLoad(x: int, n: nat)
    requires n > 0
    ensures FitsUnsigned(x, n) ==> LoadUnsigned(Store(x, n)) == x
    ensures FitsSigned(x, n) ==> LoadSigned(Store(x, n)) == x
  {
    hide Encode, Unsigned, Power256, Signed;
    assert Reversed(Reversed(Encode(x, n))) == Encode(x, n);
    UnsignedOfEncode(x, n);
    SignedRoundTrip(x, n);
    if FitsUnsigned(x, n) {
      RemainderUnique(x, Power256(n), 0, x);
    }
  }

  // ----------------------------------------------------------------------- encoding

  /** The argument is a value of its C++ type, and a text has no embedded terminator. */
  predicate Proper(a: Arg) {
    match a
    case Char(_) => true
    case U32(v) => FitsUnsigned(v, 4)
    case U64(v) => FitsUnsigned(v, 8)
    case I32(v) => FitsSigned(v, 4)
    case I64(v) => FitsSigned(v, 8)
    case Double(bits) => FitsUnsigned(bits, 8)
    case Literal(address) => FitsUnsigned(address, 8)
    case Text(bytes) => 0 !in bytes
  }

  /** The index of the argument's type in SupportedTypes. */
  function Tag(a: Arg): byte {
    match a
    case Char(_) => 0
    case U32(_) => 1
    case U64(_) => 2
    case I32(_) => 3
    case I64(_) => 4
    case Double(_) => 5
    case Literal(_) => 6
    case Text(_) => 7
  }

  function Payload(a: Arg): seq<byte> {
    match a
    case Char(c) => [c]
    case U32(v) => Store(v, 4)
    case U64(v) => Store(v, 8)
    case I32(v) => Store(v, 4)
    case I64(v) => Store(v, 8)
    case Double(bits) => Store(bits, 8)
    case Literal(address) => Store(address, 8)
    case Text(bytes) => bytes + [0]
  }

  /** What operator<< appends: an empty text leaves nothing behind. */
  function EncodeArg(a: Arg): seq<byte> {
    if a == Text([]) then [] else [Tag(a)] + Payload(a)
  }

  function EncodeAll(args: seq<Arg>): seq<byte>
    decreases |args|
  {
    if args == [] then [] else EncodeAll(args[..|args| - 1]) + EncodeArg(args[|args| - 1])
  }

  function EncodeHeader(h: Header): (bytes: seq<byte>)
    ensures |bytes| == HEADER_SIZE
  {
    Store(h.timestamp, 8) + Store(h.threadId, 4) + Store(h.file, 8) + Store(h.function_, 8) + Store(h.line, 4)
    + Store(h.level, 1)
  }

  // ---------------------------------------------------------------------- rendering

  function Chars(bytes: seq<byte>): (s: string)
    ensures |s| == |bytes|
  {
    seq(|bytes|, i requires 0 <= i < |bytes| => (bytes[i] as int) as char)
  }

  /** What the stream would have printed had it been given the argument directly. */
  function Render(pr: Printer, a: Arg): string {
    match a
    case Char(c) => Chars([c])
    case U32(v) => Decimal(v)
    case U64(v) => Decimal(v)
    case I32(v) => Decimal(v)
    case I64(v) => Decimal(v)
    case Double(bits) => pr.double(bits)
    case Literal(address) => pr.literal(address)
    case Text(bytes) => Chars(bytes)
  }

  function RenderAll(pr: Printer, args: seq<Arg>): string
    decreases |args|
  {
    if args == [] then "" else RenderAll(pr, args[..|args| - 1]) + Render(pr, args[|args| - 1])
  }

  // ----------------------------------------------------------------------- decoding

  /** The end of the scan, an unknown tag, or a read outside the buffer; with the text so far. */
  datatype Outcome = Done(text: string) | UnknownTag(text: string) | Overrun(text: string)

  function Width(tag: byte): nat {
    if tag == 0 then 1 else if tag == 1 || tag == 3 then 4 else 8
  }

  /** `os << arg` for an argument of fixed width */
  function Show(pr: Printer, tag: byte, bytes: seq<byte>): string {
    if tag == 0 then Chars(bytes)
    else if tag == 1 || tag == 2 then Decimal(LoadUnsigned(bytes))
    else if tag == 3 || tag == 4 then Decimal(LoadSigned(bytes))
    else if tag == 5 then pr.double(LoadUnsigned(bytes))
    else pr.literal(LoadUnsigned(bytes))
  }

  /** The first terminator at or after q, or the end of the buffer. */
  function TextEnd(mem: seq<byte>, q: nat): (r: nat)
    requires q <= |mem|
    ensures q <= r <= |mem| && (r < |mem| ==> mem[r] == 0)
    ensures forall i :: q <= i < r ==> mem[i] != 0
    decreases |mem| - q
  {
    if q == |mem| || mem[q] == 0 then q else TextEnd(mem, q + 1)
  }

  function Before(text: string, o: Outcome): Outcome {
    o.(text := text + o.text)
  }

  /** stringify: it stops when `start` meets `end`, wherever the tags lead it. */
  function Stringify(pr: Printer, mem: seq<byte>, start: nat, end: nat): Outcome
    decreases |mem| - start
  {
    if start == end then Done("")
    else if start >= |mem| then Overrun("")
    else
      var tag, q := mem[start], start + 1;
      if tag < 7 then
        if q + Width(tag) > |mem| then Overrun("")
        else Before(Show(pr, tag, mem[q..q + Width(tag)]), Stringify(pr, mem, q + Width(tag), end))
      else if tag == 7 then
        var r := TextEnd(mem, q);
        if r == |mem| then Overrun(Chars(mem[q..]))
        else Before(Chars(mem[q..r]), Stringify(pr, mem, r + 1, end))
      else UnknownTag("")
  }

  function LevelName(level: nat): string {
    match level
    case 0 => "DEBUG"
    case 1 => "INFO"
    case 2 => "NOTICE"
    case 3 => "WARN"
    case 4 => "ERROR"
    case 5 => "CRIT"
    case 6 => "ALERT"
    case 7 => "EMERGE"
    case 8 => "FATAL"
    case _ => "unknow"
  }

  function LineText(pr: Printer, h: Header, message: string): string {
    pr.time(h.timestamp) + " " + Decimal(h.threadId) + " " + LevelName(h.level) + " " + message
    + " - " + pr.literal(h.file) + " " + pr.literal(h.function_) + ": " + Decimal(h.line) + "\n"
  }

  /** The header as read back from memory. */
  function LoadHeader(mem: seq<byte>): Header
    requires |mem| >= HEADER_SIZE
  {
    Header(LoadUnsigned(mem[0..8]), LoadSigned(mem[8..12]), LoadUnsigned(mem[12..20]), LoadUnsigned(mem[20..28]),
           LoadUnsigned(mem[28..32]), LoadUnsigned(mem[32..33]))
  }

  predicate ProperHeader(h: Header) {
    && FitsUnsigned(h.timestamp, 8) && FitsSigned(h.threadId, 4) && FitsUnsigned(h.file, 8)
    && FitsUnsigned(h.function_, 8) && FitsUnsigned(h.line, 4) && FitsUnsigned(h.level, 1)
  }

  /** stringify of the whole line */
  function StringifyLine(pr: Printer, mem: seq<byte>, used: nat): Outcome
    requires |mem| >= HEADER_SIZE
  {
    var o := Stringify(pr, mem, HEADER_SIZE, used);
    o.(text := LineText(pr, LoadHeader(mem), o.text))
  }

  // --------------------------------------------------------------------- round trip

  lemma {:induction false} EncodeAllCons(a: Arg, args: seq<Arg>)
    ensures EncodeAll([a] + args) == EncodeArg(a) + EncodeAll(args)
    decreases |args|
  {
    hide EncodeArg;
    if args == [] {
      assert [a] + args == [a] && [a][..0] == [];
      assert EncodeAll([a]) == EncodeAll([]) + EncodeArg(a);
    } else {
      var n := |args| - 1;
      EncodeAllCons(a, args[..n]);
      assert ([a] + args)[..n + 1] == [a] + args[..n];
    }
  }

  lemma {:induction false} RenderAllCons(pr: Printer, a: Arg, args: seq<Arg>)
    ensures RenderAll(pr, [a] + args) == Render(pr, a) + RenderAll(pr, args)
    decreases |args|
  {
    hide Render;
    if args == [] {
      assert [a] + args == [a] && [a][..0] == [];
      assert RenderAll(pr, [a]) == RenderAll(pr, []) + Render(pr, a);
    } else {
      var n := |args| - 1;
      RenderAllCons(pr, a, args[..n]);
      assert ([a] + args)[..n + 1] == [a] + args[..n];
    }
  }

  /** An argument of fixed width is printed as if it had never been stored. */
  lemma ShowStored(pr: Printer, a: Arg)
    requires Proper(a) && !a.Text?
    ensures Tag(a) < 7 && |Payload(a)| == Width(Tag(a)) && Show(pr, Tag(a), Payload(a)) == Render(pr, a)
  {
    hide Store, LoadUnsigned, LoadSigned, Decimal, FitsSigned, FitsUnsigned;
    match a
    case Char(c) =>
    case U32(v) => StoreLoad(v, 4);
    case U64(v) => StoreLoad(v, 8);
    case I32(v) => StoreLoad(v, 4);
    case I64(v) => StoreLoad(v, 8);
    case Double(bits) => StoreLoad(bits, 8);
    case Literal(address) => StoreLoad(address, 8);
  }

  /** The scan of a text ends at the first terminator. */
  lemma TextEndIs(mem: seq<byte>, q: nat, r: nat)
    requires q <= r < |mem| && mem[r] == 0 && forall i :: q <= i < r ==> mem[i] != 0
    ensures TextEnd(mem, q) == r
  {
  }

  lemma FixedStep(pr: Printer, mem: seq<byte>, p: nat, end: nat)
    requires p < |mem| && p != end && mem[p] < 7 && p + 1 + Width(mem[p]) <= |mem|
    ensures var next := p + 1 + Width(mem[p]);
            Stringify(pr, mem, p, end) == Before(Show(pr, mem[p], mem[p + 1..next]), Stringify(pr, mem, next, end))
  {
    hide Show;
  }

  lemma TextStep(pr: Printer, mem: seq<byte>, p: nat, r: nat, end: nat)
    requires p < r < |mem| && p != end && mem[p] == 7 && mem[r] == 0
    requires forall i :: p < i < r ==> mem[i] != 0
    ensures Stringify(pr, mem, p, end) == Before(Chars(mem[p + 1..r]), Stringify(pr, mem, r + 1, end))
  {
    hide Show, TextEnd;
    TextEndIs(mem, p + 1, r);
  }

  /** Where the decoder gives up. */
  lemma StopStep(pr: Printer, mem: seq<byte>, p: nat, end: nat)
    requires p != end
    ensures p >= |mem| ==> Stringify(pr, mem, p, end) == Overrun("")
    ensures p < |mem| && mem[p] < 7 && p + 1 + Width(mem[p]) > |mem| ==> Stringify(pr, mem, p, end) == Overrun("")
    ensures p < |mem| && mem[p] == 7 && TextEnd(mem, p + 1) == |mem| ==>
              Stringify(pr, mem, p, end) == Overrun(Chars(mem[p + 1..]))
    ensures p < |mem| && mem[p] > 7 ==> Stringify(pr, mem, p, end) == UnknownTag("")
  {
    hide Show, TextEnd, Chars;
  }

  lemma EndStep(pr: Printer, mem: seq<byte>, p: nat)
    ensures Stringify(pr, mem, p, p) == Done("")
  {
  }

  lemma StringifyText(pr: Printer, mem: seq<byte>, p: nat, bytes: seq<byte>, end: nat)
    requires 0 !in bytes && p != end && p + |bytes| + 2 <= |mem|
    requires mem[p] == 7 && mem[p + 1..p + |bytes| + 2] == bytes + [0]
    ensures Stringify(pr, mem, p, end) == Before(Chars(bytes), Stringify(pr, mem, p + |bytes| + 2, end))
  {
    hide Stringify, Chars;
    var r := p + 1 + |bytes|;
    assert mem[p + 1..r] == mem[p + 1..r + 1][..|bytes|] == bytes;
    forall i | p < i < r ensures mem[i] != 0 {
      assert mem[i] == mem[p + 1..r][i - p - 1];
    }
    assert mem[r] == mem[p + 1..r + 1][|bytes|] == 0;
    TextStep(pr, mem, p, r, end);
  }

  /** Decoding one encoded argument: it prints the argument and goes on right behind it. */
  lemma StringifyOne(pr: Printer, mem: seq<byte>, p: nat, a: Arg, end: nat)
    requires Proper(a) && a != Text([]) && p + |EncodeArg(a)| <= |mem| && p != end
    requires mem[p..p + |EncodeArg(a)|] == EncodeArg(a)
    ensures Stringify(pr, mem, p, end) == Before(Render(pr, a), Stringify(pr, mem, p + |EncodeArg(a)|, end))
  {
    hide Show, Store, Stringify, Decimal, Chars, FitsSigned, FitsUnsigned;
    var n := |EncodeArg(a)|;
    assert mem[p] == mem[p..p + n][0] == Tag(a);
    assert mem[p + 1..p + n] == mem[p..p + n][1..] == Payload(a);
    if a.Text? {
      StringifyText(pr, mem, p, a.bytes, end);
    } else {
      ShowStored(pr, a);
      FixedStep(pr, mem, p, end);
    }
  }

  /** stringify of encoded arguments prints their renderings one after the other and stops exactly at the end. */
  lemma {:induction false} DecodingInvertsEncoding(pr: Printer, mem: seq<byte>, p: nat, args: seq<Arg>)
    requires forall i :: 0 <= i < |args| ==> Proper(args[i])
    requires p + |EncodeAll(args)| <= |mem| && mem[p..p + |EncodeAll(args)|] == EncodeAll(args)
    ensures Stringify(pr, mem, p, p + |EncodeAll(args)|) == Done(RenderAll(pr, args))
    decreases |args|
  {
    hide EncodeArg, Render, Proper, Stringify;
    if args == [] {
      EndStep(pr, mem, p);
    } else {
      var a, rest := args[0], args[1..];
      FirstArgument(pr, args);
      var n, q := |EncodeArg(a)|, p + |EncodeArg(a)|;
      assert mem[p..q] == EncodeAll(args)[..n] == EncodeArg(a);
      assert mem[q..q + |EncodeAll(rest)|] == EncodeAll(args)[n..] == EncodeAll(rest);
      DecodingInvertsEncoding(pr, mem, q, rest);
      if a != Text([]) {
        StringifyOne(pr, mem, p, a, p + |EncodeAll(args)|);
      }
    }
  }

  lemma FirstArgument(pr: Printer, args: seq<Arg>)
    requires args != []
    ensures EncodeAll(args) == EncodeArg(args[0]) + EncodeAll(args[1..])
    ensures RenderAll(pr, args) == Render(pr, args[0]) + RenderAll(pr, args[1..])
    ensures args[0] == Text([]) ==> EncodeArg(args[0]) == [] && Render(pr, args[0]) == ""
    ensures args[0] != Text([]) ==> |EncodeArg(args[0])| > 0
  {
    hide EncodeAll, RenderAll;
    assert args == [args[0]] + args[1..];
    EncodeAllCons(args[0], args[1..]);
    RenderAllCons(pr, args[0], args[1..]);
    EmptyText(pr, args[0]);
  }

  lemma EmptyText(pr: Printer, a: Arg)
    ensures a == Text([]) ==> EncodeArg(a) == [] && Render(pr, a) == ""
    ensures a != Text([]) ==> |EncodeArg(a)| > 0
  {
  }

  /** The header survives storage. */
  lemma HeaderRoundTrip(h: Header, mem: seq<byte>)
    requires ProperHeader(h) && |mem| >= HEADER_SIZE && mem[..HEADER_SIZE] == EncodeHeader(h)
    ensures LoadHeader(mem) == h
  {
    hide Store, LoadUnsigned, LoadSigned, FitsSigned, FitsUnsigned;
    var e := EncodeHeader(h);
    assert mem[0..8] == e[0..8] == Store(h.timestamp, 8);
    assert mem[8..12] == e[8..12] == Store(h.threadId, 4);
    assert mem[12..20] == e[12..20] == Store(h.file, 8);
    assert mem[20..28] == e[20..28] == Store(h.function_, 8);
    assert mem[28..32] == e[28..32] == Store(h.line, 4);
    assert mem[32..33] == e[32..33] == Store(h.level, 1);
    StoreLoad(h.timestamp, 8);
    StoreLoad(h.threadId, 4);
    StoreLoad(h.file, 8);
    StoreLoad(h.function_, 8);
    StoreLoad(h.line, 4);
    StoreLoad(h.level, 1);
  }

  /** A whole line is printed as if its header and arguments had been printed directly. */
  lemma LineRoundTrip(pr: Printer, mem: seq<byte>, h: Header, args: seq<Arg>)
    requires ProperHeader(h) && forall i :: 0 <= i < |args| ==> Proper(args[i])
    requires var all := EncodeHeader(h) + EncodeAll(args);
             |all| <= |mem| && mem[..|all|] == all
    ensures StringifyLine(pr, mem, HEADER_SIZE + |EncodeAll(args)|) == Done(LineText(pr, h, RenderAll(pr, args)))
  {
    hide EncodeHeader, EncodeAll, Proper, ProperHeader, LoadHeader, Stringify, LineText;
    var all := EncodeHeader(h) + EncodeAll(args);
    assert mem[..HEADER_SIZE] == all[..HEADER_SIZE] == EncodeHeader(h);
    assert mem[HEADER_SIZE..|all|] == all[HEADER_SIZE..] == EncodeAll(args);
    HeaderRoundTrip(h, mem);
    DecodingInvertsEncoding(pr, mem, HEADER_SIZE, args);
  }

  // -------------------------------------------------------------- reading a line back

  /** The fields a reader of the log finds in one line. */
  datatype LineFields = LineFields(
    time: string, threadId: Parsed, level: nat, message: string, file: string, function_: string, line: Parsed)

  /** The number of a level by its name, 9 for an unknown one. */
  function LevelNumber(name: string): nat {
    if name == "DEBUG" then 0
    else if name == "INFO" then 1
    else if name == "NOTICE" then 2
    else if name == "WARN" then 3
    else if name == "ERROR" then 4
    else if name == "CRIT" then 5
    else if name == "ALERT" then 6
    else if name == "EMERGE" then 7
    else if name == "FATAL" then 8
    else 9
  }

  /**
   * Reads a line whose time contains `spaces` blanks: time, thread id and level from the
   * left; line number, function and file from the right; the message is what remains.
   */
  function ReadLine(text: string, spaces: nat): LineFields {
    var time := SplitAt(text, ' ', spaces);
    var threadId := SplitFirst(time.tail, ' ');
    var level := SplitFirst(threadId.tail, ' ');
    var line := SplitLast(DropLast(level.tail, 1), ' ');       // without the newline
    var function_ := SplitLast(DropLast(line.head, 1), ' ');   // without the colon
    var file := SplitLast(function_.head, ' ');
    LineFields(time.head, ParseDecimal(threadId.head), LevelNumber(level.head),
               DropLast(file.head, 2), file.tail, function_.tail, ParseDecimal(line.tail))
  }

  lemma LevelReadsBack(level: nat)
    ensures LevelNumber(LevelName(level)) == if level < 9 then level else 9
    ensures ' ' !in LevelName(level)
  {
  }

  /** The right-hand part of a line: whatever the message, its trailer is found from the end. */
  lemma TrailerReadsBack(message: string, file: string, function_: string, line: int)
    requires ' ' !in file && ' ' !in function_
    ensures var text := message + " - " + file + " " + function_ + ": " + Decimal(line) + "\n";
            var l := SplitLast(DropLast(text, 1), ' ');
            var f := SplitLast(DropLast(l.head, 1), ' ');
            var g := SplitLast(f.head, ' ');
            && l.tail == Decimal(line) && f.tail == function_ && g.tail == file && DropLast(g.head, 2) == message
  {
    hide Decimal, SplitLast;
    var head := message + " -";
    var text := message + " - " + file + " " + function_ + ": " + Decimal(line) + "\n";
    DecimalHasNoBlank(line);
    var upToColon := head + [' '] + file + [' '] + function_ + ":";
    assert DropLast(text, 1) == upToColon + [' '] + Decimal(line);
    SplitLastAt(upToColon, ' ', Decimal(line));
    assert DropLast(upToColon, 1) == head + [' '] + file + [' '] + function_;
    SplitLastAt(head + [' '] + file, ' ', function_);
    SplitLastAt(head, ' ', file);
    assert DropLast(head, 2) == message;
  }

  /**
   * A printed line can be read: every field is found again, each under its own name,
   * whatever the message contains.
   */
  lemma LineReadsBack(pr: Printer, h: Header, message: string)
    requires ' ' !in pr.literal(h.file) && ' ' !in pr.literal(h.function_)
    ensures ReadLine(LineText(pr, h, message), Count(pr.time(h.timestamp), ' ')) ==
            LineFields(pr.time(h.timestamp), Number(h.threadId), if h.level < 9 then h.level else 9,
                       message, pr.literal(h.file), pr.literal(h.function_), Number(h.line))
  {
    hide Decimal, SplitFirst, SplitLast, SplitAt, Count, LevelName, LevelNumber, ParseDecimal;
    var time, tid, level := pr.time(h.timestamp), Decimal(h.threadId), LevelName(h.level);
    var trailer := message + " - " + pr.literal(h.file) + " " + pr.literal(h.function_) + ": " + Decimal(h.line) + "\n";
    assert LineText(pr, h, message) == time + [' '] + (tid + [' '] + (level + [' '] + trailer));
    SplitAtCount(time, ' ', tid + [' '] + (level + [' '] + trailer), Count(time, ' '));
    DecimalHasNoBlank(h.threadId);
    SplitFirstAt(tid, ' ', level + [' '] + trailer);
    LevelReadsBack(h.level);
    SplitFirstAt(level, ' ', trailer);
    TrailerReadsBack(message, pr.literal(h.file), pr.literal(h.function_), h.line);
    DecimalRoundTrip(h.threadId);
    DecimalRoundTrip(h.line);
  }

  /** An integer argument prints as a text that reads back as its value. */
  lemma RenderedIntegerReadsBack(pr: Printer, a: Arg)
    requires a.U32? || a.U64? || a.I32? || a.I64?
    ensures ParseDecimal(Render(pr, a)) == Number(if a.U32? || a.U64? then a.value else a.signed)
  {
    DecimalRoundTrip(if a.U32? || a.U64? then a.value else a.signed);
  }

  // ------------------------------------------------------------- embedded terminators

  /** A text with an embedded terminator is cut there, and its remaining bytes are taken for tags. */
  lemma TextIsCutAtTerminator(pr: Printer, mem: seq<byte>, p: nat, bytes: seq<byte>, k: nat, end: nat)
    requires k < |bytes| && bytes[k] == 0 && 0 !in bytes[..k]
    requires p + |bytes| + 2 <= |mem| && mem[p..p + |bytes| + 2] == EncodeArg(Text(bytes)) && p != end
    ensures Stringify(pr, mem, p, end) == Before(Chars(bytes[..k]), Stringify(pr, mem, p + 2 + k, end))
  {
    hide Stringify, Chars;
    var e, r := EncodeArg(Text(bytes)), p + 1 + k;
    assert e == [7] + bytes + [0];
    forall i | 0 <= i < |e| ensures mem[p + i] == e[i] {
      assert mem[p..p + |bytes| + 2][i] == e[i];
    }
    forall i | p < i < r ensures mem[i] != 0 {
      assert mem[p + (i - p)] == e[i - p] == bytes[i - p - 1] == bytes[..k][i - p - 1];
    }
    assert mem[p + (k + 1)] == e[k + 1] == bytes[k];
    forall i | 0 <= i < k ensures mem[p + 1..r][i] == bytes[..k][i] {
      assert mem[p + (i + 1)] == e[i + 1] == bytes[i];
    }
    assert mem[p + 1..r] == bytes[..k];
    assert mem[p + 0] == e[0];
    TextStep(pr, mem, p, r, end);
  }

  /** The decoder goes on right behind a text exactly when the text has no embedded terminator. */
  lemma TextConsumedExactly(mem: seq<byte>, p: nat, bytes: seq<byte>)
    requires p + |bytes| + 2 <= |mem| && mem[p..p + |bytes| + 2] == [7] + bytes + [0]
    ensures TextEnd(mem, p + 1) + 1 == p + |bytes| + 2 <==> 0 !in bytes
  {
    hide TextEnd;
    var e := [7] + bytes + [0];
    forall i | 0 <= i < |e| ensures mem[p + i] == e[i] {
      assert mem[p..p + |bytes| + 2][i] == e[i];
    }
    assert mem[p + (|bytes| + 1)] == 0;
    if 0 in bytes {
      var k :| 0 <= k < |bytes| && bytes[k] == 0;
      assert mem[p + (k + 1)] == e[k + 1] == 0;
    } else {
      forall i | p + 1 <= i < p + 1 + |bytes| ensures mem[i] != 0 {
        assert mem[p + (i - p)] == e[i - p] == bytes[i - p - 1];
      }
      TextEndIs(mem, p + 1, p + 1 + |bytes|);
    }
  }

  // The exact condition for one text, by counting terminators: each one that is printed
  // takes two zero bytes, its tag and itself, and the cut takes one without printing it.

  function Nuls(text: string): nat {
    if text == "" then 0 else (if text[0] == '\0' then 1 else 0) + Nuls(text[1..])
  }

  function Zeros(mem: seq<byte>, i: nat, j: nat): nat
    requires i <= j <= |mem|
    decreases j - i
  {
    if i == j then 0 else (if mem[i] == 0 then 1 else 0) + Zeros(mem, i + 1, j)
  }

  /** Doubles and literals print without a terminator, as every C++ stream does. */
  ghost predicate NulFree(pr: Printer) {
    forall n: nat :: '\0' !in pr.double(n) && '\0' !in pr.literal(n)
  }

  lemma {:induction false} NulsConcat(x: string, y: string)
    ensures Nuls(x + y) == Nuls(x) + Nuls(y)
    decreases |x|
  {
    if x == "" {
      assert x + y == y;
    } else {
      NulsConcat(x[1..], y);
      assert (x + y)[1..] == x[1..] + y;
    }
  }

  lemma {:induction false} NoNuls(text: string)
    requires '\0' !in text
    ensures Nuls(text) == 0
  {
    if text != "" {
      NoNuls(text[1..]);
    }
  }

  lemma {:induction false} ZerosSplit(mem: seq<byte>, i: nat, k: nat, j: nat)
    requires i <= k <= j <= |mem|
    ensures Zeros(mem, i, j) == Zeros(mem, i, k) + Zeros(mem, k, j)
    decreases k - i
  {
    if i < k {
      ZerosSplit(mem, i + 1, k, j);
    }
  }

  lemma {:induction false} CharsZeros(mem: seq<byte>, i: nat, j: nat)
    requires i <= j <= |mem|
    ensures Nuls(Chars(mem[i..j])) == Zeros(mem, i, j)
    decreases j - i
  {
    if i < j {
      CharsZeros(mem, i + 1, j);
      assert Chars(mem[i..j])[1..] == Chars(mem[i + 1..j]);
    }
  }

  lemma DecimalHasNoNul(v: int)
    ensures '\0' !in Decimal(v)
  {
    hide Numeral, Value;
    NumeralReadsBack(if v < 0 then -v else v, 10);
    var n := Numeral(if v < 0 then -v else v, 10);
    assert forall i :: 0 <= i < |n| ==> n[i] != '\0';
  }

  /** Only tag 0 prints a terminator, for two zero bytes. */
  lemma ShownNuls(pr: Printer, mem: seq<byte>, p: nat)
    requires NulFree(pr) && p < |mem| && mem[p] < 7 && p + 1 + Width(mem[p]) <= |mem|
    ensures var next := p + 1 + Width(mem[p]);
            2 * Nuls(Show(pr, mem[p], mem[p + 1..next])) <= Zeros(mem, p, next)
  {
    hide Decimal, LoadUnsigned, LoadSigned, Chars;
    var next := p + 1 + Width(mem[p]);
    var shown := Show(pr, mem[p], mem[p + 1..next]);
    if mem[p] == 0 {
      CharsZeros(mem, p + 1, next);
      assert Zeros(mem, p + 1, next) <= 1 by {
        assert Zeros(mem, p + 2, next) == 0;
      }
      assert Zeros(mem, p, next) == 1 + Zeros(mem, p + 1, next);
    } else {
      if mem[p] <= 4 {
        DecimalHasNoNul(LoadUnsigned(mem[p + 1..next]));
        DecimalHasNoNul(LoadSigned(mem[p + 1..next]));
      }
      NoNuls(shown);
    }
  }

  lemma {:induction false} PrintedNuls(pr: Printer, mem: seq<byte>, start: nat, end: nat)
    requires NulFree(pr) && Stringify(pr, mem, start, end).Done?
    ensures start == end || start < end <= |mem|
    ensures start < end ==> 2 * Nuls(Stringify(pr, mem, start, end).text) <= Zeros(mem, start, end)
    ensures start == end ==> Nuls(Stringify(pr, mem, start, end).text) == 0
    decreases |mem| - start
  {
    hide Show, Chars, Zeros, NulFree;
    if start != end {
      if mem[start] < 7 {
        var next := start + 1 + Width(mem[start]);
        PrintedNuls(pr, mem, next, end);
        ShownNuls(pr, mem, start);
        ZerosSplit(mem, start, next, end);
        NulsConcat(Show(pr, mem[start], mem[start + 1..next]), Stringify(pr, mem, next, end).text);
      } else {
        var r := TextEnd(mem, start + 1);
        PrintedNuls(pr, mem, r + 1, end);
        PlainText(mem, start + 1, r);
        ZerosSplit(mem, start, r + 1, end);
        NulsConcat(Chars(mem[start + 1..r]), Stringify(pr, mem, r + 1, end).text);
      }
    }
  }

  lemma PlainText(mem: seq<byte>, i: nat, j: nat)
    requires i <= j <= |mem| && forall k :: i <= k < j ==> mem[k] != 0
    ensures Zeros(mem, i, j) == 0 && Nuls(Chars(mem[i..j])) == 0
    decreases j - i
  {
    CharsZeros(mem, i, j);
    if i < j {
      PlainText(mem, i + 1, j);
    }
  }

  lemma FirstZero(bytes: seq<byte>) returns (k: nat)
    requires 0 in bytes
    ensures k < |bytes| && bytes[k] == 0 && 0 !in bytes[..k]
  {
    k := TextEnd(bytes, 0);
  }

  /** A text that ends the line is printed as it was given exactly when it has no embedded terminator. */
  lemma TextRoundTripExactly(pr: Printer, mem: seq<byte>, p: nat, bytes: seq<byte>)
    requires NulFree(pr)
    requires var n := |EncodeArg(Text(bytes))|; p + n <= |mem| && mem[p..p + n] == EncodeArg(Text(bytes))
    ensures Stringify(pr, mem, p, p + |EncodeArg(Text(bytes))|) == Done(Chars(bytes)) <==> 0 !in bytes
  {
    hide Stringify, Chars, Zeros, Nuls, NulFree;
    var end := p + |EncodeArg(Text(bytes))|;
    if bytes == [] {
      EndStep(pr, mem, p);
      assert Chars(bytes) == "";
    } else if 0 !in bytes {
      StringifyOne(pr, mem, p, Text(bytes), end);
      EndStep(pr, mem, end);
      assert Chars(bytes) + "" == Chars(bytes);
    } else {
      var k := FirstZero(bytes);
      TextIsCutAtTerminator(pr, mem, p, bytes, k, end);
      var rest := Stringify(pr, mem, p + 2 + k, end);
      if rest.Done? {
        PrintedNuls(pr, mem, p + 2 + k, end);
        NulsConcat(Chars(bytes[..k]), rest.text);
        CutZeros(mem, p, bytes, k);
      }
    }
  }

  /** The zero bytes behind the cut are as many as those of the text. */
  lemma CutZeros(mem: seq<byte>, p: nat, bytes: seq<byte>, k: nat)
    requires k < |bytes| && bytes[k] == 0 && 0 !in bytes[..k]
    requires p + |bytes| + 2 <= |mem| && mem[p..p + |bytes| + 2] == [7] + bytes + [0]
    ensures Nuls(Chars(bytes[..k])) == 0 && Nuls(Chars(bytes)) > 0
    ensures Zeros(mem, p + 2 + k, p + |bytes| + 2) == Nuls(Chars(bytes))
  {
    hide Chars, Zeros, Nuls;
    var q, end := p + 1, p + |bytes| + 2;
    var e := [7] + bytes + [0];
    forall i | 0 <= i < |e| ensures mem[p + i] == e[i] {
      assert mem[p..end][i] == e[i];
    }
    forall i | 0 <= i < |bytes| ensures mem[q + i] == bytes[i] {
      assert mem[p + (i + 1)] == e[i + 1];
    }
    assert mem[p + (|bytes| + 1)] == e[|bytes| + 1] == 0;
    assert mem[q..q + |bytes|] == bytes && mem[q..q + k] == bytes[..k];
    forall i | q <= i < q + k ensures mem[i] != 0 {
      assert mem[i] == bytes[..k][i - q];
    }
    PlainText(mem, q, q + k);
    CharsZeros(mem, q, q + |bytes|);
    ZerosSplit(mem, q, q + k, q + |bytes|);
    ZerosSplit(mem, q + k, q + |bytes|, end);
    OneZero(mem, q + k, q + |bytes|);
    OneZero(mem, q + k, end);
    OneZero(mem, q + |bytes|, end);
  }

  lemma OneZero(mem: seq<byte>, i: nat, j: nat)
    requires i < j <= |mem| && mem[i] == 0
    ensures Zeros(mem, i, j) == 1 + Zeros(mem, i + 1, j)
    ensures Zeros(mem, j, j) == 0
  {
  }

  /** A text that ends in a terminator sends the decoder past the end. */
  lemma EmbeddedTerminatorOverruns(pr: Printer)
    ensures var mem := EncodeArg(Text([65, 0]));
            Stringify(pr, mem, 0, |mem|) == Overrun("A")
  {
    var mem := EncodeArg(Text([65, 0]));
    assert mem == [7, 65, 0, 0];
    TextIsCutAtTerminator(pr, mem, 0, [65, 0], 1, 4);
    assert Chars([65, 0][..1]) == "A";
    assert Stringify(pr, mem, 3, 4) == Overrun("");
  }

  /** Arguments that follow can make up for such a text, so for a whole line the condition is only sufficient. */
  lemma LaterArgumentsCanRescue(pr: Printer)
    ensures var args := [Text([0]), Char(7), Text([104, 105])];
            var mem := EncodeAll(args);
            !Proper(args[0]) && Stringify(pr, mem, 0, |mem|) == Done(RenderAll(pr, args))
  {
    hide Stringify, EncodeAll, RenderAll, Chars;
    RescuedLine(pr);
    DecodeRescued(pr);
  }

  lemma DecodeRescued(pr: Printer)
    ensures Stringify(pr, [7, 0, 0, 0, 7, 7, 104, 105, 0], 0, 9) == Done(Chars([0, 7, 104, 105]))
  {
    hide Stringify, Chars;
    var mem: seq<byte> := [7, 0, 0, 0, 7, 7, 104, 105, 0];
    TextStep(pr, mem, 0, 1, 9);
    FixedStep(pr, mem, 2, 9);
    TextStep(pr, mem, 4, 8, 9);
    EndStep(pr, mem, 9);
    assert mem[1..1] == [] && mem[3..4] == [0] && mem[5..8] == [7, 104, 105];
    CharsConcat([0], [7, 104, 105]);
    CharsConcat([], []);
    assert [0] + [7, 104, 105] == [0, 7, 104, 105];
    assert "" + (Chars([0]) + (Chars([7, 104, 105]) + "")) == Chars([0]) + Chars([7, 104, 105]);
    assert Stringify(pr, mem, 4, 9) == Done(Chars([7, 104, 105]) + "");
    assert Stringify(pr, mem, 2, 9) == Done(Chars([0]) + (Chars([7, 104, 105]) + ""));
  }

  lemma CharsConcat(x: seq<byte>, y: seq<byte>)
    ensures Chars(x + y) == Chars(x) + Chars(y) && |Chars(x)| == |x|
  {
  }

  lemma RescuedLine(pr: Printer)
    ensures var args := [Text([0]), Char(7), Text([104, 105])];
            && EncodeAll(args) == [7, 0, 0, 0, 7, 7, 104, 105, 0] && RenderAll(pr, args) == Chars([0, 7, 104, 105])
  {
    var args := [Text([0]), Char(7), Text([104, 105])];
    assert args[..2] == [Text([0]), Char(7)] && args[..2][..1] == [Text([0])] && [Text([0])][..0] == [];
    assert EncodeAll(args[..2][..1]) == [] + [7, 0, 0];
    assert RenderAll(pr, args[..2][..1]) == "" + Chars([0]);
    assert RenderAll(pr, args[..2]) == Chars([0]) + Chars([7]);
  }
}
