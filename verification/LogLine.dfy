// class LogLine of example/log/Log.cpp: a line built in place in a stack buffer that
// moves to the heap when it outgrows it.
module LogLine {
  import opened Machine
  import opened LogCodec
  import opened LineGrowth
  import opened Numerals

  class LogLine {
    const doubling: bool                  // the growth policy of test/testLog/NanoLog.cpp
    const stackBuffer: array<byte>        // _stack_buffer
    var heapBuffer: array?<byte>          // _heap_buffer
    var bytesUsed: nat                    // _bytes_used
    var bufferSize: nat                   // _buffer_size
    // history
    ghost const header: Header
    ghost var args: seq<Arg>
    ghost var copied: nat

    function Memory(): array<byte>
      reads this`heapBuffer
    {
      if heapBuffer == null then stackBuffer else heapBuffer
    }

    ghost function Shape(): Space
      reads this
    {
      Space(heapBuffer != null, bufferSize, bytesUsed, copied)
    }

    /** The used bytes are the encoded header and arguments. */
    ghost predicate Valid()
      reads this, stackBuffer, Memory()
    {
      && stackBuffer.Length == STACK_BUFFER && heapBuffer != stackBuffer
      && bufferSize == Memory().Length && HEADER_SIZE <= bytesUsed <= bufferSize
      && Memory()[..bytesUsed] == EncodeHeader(header) + EncodeAll(args)
    }

    constructor (doubling: bool, h: Header)
      ensures Valid() && header == h && args == [] && Shape() == START
      ensures this.doubling == doubling && fresh(stackBuffer)
    {
      hide Store;
      this.doubling := doubling;
      stackBuffer := new byte[STACK_BUFFER](_ => 0);
      heapBuffer, bytesUsed, bufferSize := null, 0, STACK_BUFFER;
      header, args, copied := h, [], 0;
      new;
      EncodeRaw(Store(h.timestamp, 8));
      EncodeRaw(Store(h.threadId, 4));
      EncodeRaw(Store(h.file, 8));
      EncodeRaw(Store(h.function_, 8));
      EncodeRaw(Store(h.line, 4));
      EncodeRaw(Store(h.level, 1));
      assert Memory()[..bytesUsed] == EncodeHeader(h) + [];
    }

    /** Stores bytes behind the used ones and counts them as used. */
    method EncodeRaw(bytes: seq<byte>)
      requires bytesUsed + |bytes| <= Memory().Length
      modifies this`bytesUsed, Memory()
      ensures bytesUsed == old(bytesUsed) + |bytes|
      ensures Memory()[..bytesUsed] == old(Memory()[..bytesUsed]) + bytes
    {
      var memory, at := Memory(), bytesUsed;
      ghost var before := memory[..at];
      forall i | 0 <= i < |bytes| {
        memory[at + i] := bytes[i];
      }
      assert memory[..at] == before && memory[at..at + |bytes|] == bytes;
      assert memory[..at + |bytes|] == memory[..at] + memory[at..at + |bytes|];
      bytesUsed := at + |bytes|;
    }

    method ResizeBufferIfNeeded(additional: nat)
      requires Valid()
      modifies this`heapBuffer, this`bufferSize, this`copied
      ensures Valid() && bytesUsed + additional <= bufferSize
      ensures heapBuffer == old(heapBuffer) || fresh(heapBuffer)
      ensures Shape() == Resize(doubling, old(Shape()), additional)
    {
      hide EncodeHeader, EncodeAll;
      var required := bytesUsed + additional;
      if required <= bufferSize {
        return;
      }
      if heapBuffer == null || !doubling {
        bufferSize := Max(FIRST_HEAP_BUFFER, required);
      } else {
        bufferSize := Max(2 * bufferSize, required);
      }
      var larger := new byte[bufferSize](_ => 0);
      var memory := Memory();
      forall i | 0 <= i < bytesUsed {
        larger[i] := memory[i];
      }
      assert larger[..bytesUsed] == memory[..bytesUsed];
      heapBuffer, copied := larger, copied + bytesUsed;
    }

    /** encode(arg, type_id) for an argument of fixed width */
    method EncodeFixed(a: Arg)
      requires Valid() && !a.Text?
      modifies this, Memory()
      ensures Valid() && args == old(args) + [a] && (heapBuffer == old(heapBuffer) || fresh(heapBuffer))
      ensures Shape() == Encoded(doubling, old(Shape()), |EncodeArg(a)|)
    {
      hide EncodeHeader, EncodeAll, Resize, Payload;
      ResizeBufferIfNeeded(|Payload(a)| + 1);
      ghost var before := Memory()[..bytesUsed];
      EncodeRaw([Tag(a)]);
      EncodeRaw(Payload(a));
      assert before + [Tag(a)] + Payload(a) == before + EncodeArg(a);
      ArgAdded(header, args, a);
      args := args + [a];
    }

    /** encode_c_string: nothing for an empty text */
    method EncodeText(bytes: seq<byte>)
      requires Valid()
      modifies this, Memory()
      ensures Valid() && args == old(args) + [Text(bytes)] && (heapBuffer == old(heapBuffer) || fresh(heapBuffer))
      ensures Shape() == Encoded(doubling, old(Shape()), |EncodeArg(Text(bytes))|)
    {
      hide EncodeHeader, EncodeAll, Resize;
      ghost var a := Text(bytes);
      ArgAdded(header, args, a);
      NoResize(doubling, Shape());
      if bytes != [] {
        ResizeBufferIfNeeded(1 + |bytes| + 1);
        ghost var before := Memory()[..bytesUsed];
        EncodeRaw([7] + bytes + [0]);
        assert [7] + bytes + [0] == EncodeArg(a);
      }
      args := args + [a];
    }

    /** Copies characters up to a terminator; stopped here at the end of the buffer. */
    method DecodeText(q: nat) returns (text: string, r: nat)
      requires q <= Memory().Length
      ensures r == TextEnd(Memory()[..], q) && text == Chars(Memory()[q..r])
    {
      var memory := Memory();
      text, r := "", q;
      while r < memory.Length && memory[r] != 0
        invariant q <= r <= memory.Length && text == Chars(memory[q..r])
        invariant TextEnd(memory[..], q) == TextEnd(memory[..], r)
      {
        text := text + [(memory[r] as int) as char];
        assert memory[q..r + 1] == memory[q..r] + [memory[r]];
        r := r + 1;
      }
    }

    /** The recursive stringify. */
    method StringifyFrom(pr: Printer, start: nat, end: nat) returns (o: Outcome)
      ensures o == LogCodec.Stringify(pr, Memory()[..], start, end)
      decreases Memory().Length - start
    {
      hide Show, LogCodec.Stringify, TextEnd, Chars;
      var memory := Memory();
      if start == end {
        EndStep(pr, memory[..], start);
        return Done("");
      }
      StopStep(pr, memory[..], start, end);
      if start >= memory.Length {
        return Overrun("");
      }
      var tag, q := memory[start], start + 1;
      if tag < 7 {
        if q + Width(tag) > memory.Length {
          return Overrun("");
        }
        o := StringifyFrom(pr, q + Width(tag), end);
        FixedStep(pr, memory[..], start, end);
        assert memory[..][q..q + Width(tag)] == memory[q..q + Width(tag)];
        o := Before(Show(pr, tag, memory[q..q + Width(tag)]), o);
      } else if tag == 7 {
        var text, r := DecodeText(q);
        if r == memory.Length {
          assert memory[..][q..] == memory[q..r];
          return Overrun(text);
        }
        o := StringifyFrom(pr, r + 1, end);
        TextStep(pr, memory[..], start, r, end);
        assert memory[..][q..r] == memory[q..r];
        o := Before(text, o);
      } else {
        o := UnknownTag("");
      }
    }

    /** A line of proper arguments is printed exactly as if they had been printed directly. */
    method Stringify(pr: Printer) returns (o: Outcome)
      requires Valid()
      ensures o == StringifyLine(pr, Memory()[..], bytesUsed)
      ensures ProperHeader(header) && (forall i :: 0 <= i < |args| ==> Proper(args[i])) ==>
                o == Done(LineText(pr, header, RenderAll(pr, args)))
    {
      hide LogCodec.Stringify, EncodeHeader, EncodeAll, LoadHeader, Proper, ProperHeader, RenderAll, Decimal, LevelName;
      var memory := Memory();
      var h := LoadHeader(memory[..]);
      var os := pr.time(h.timestamp);
      os := os + " " + Decimal(h.threadId) + " " + LevelName(h.level) + " ";
      o := StringifyFrom(pr, HEADER_SIZE, bytesUsed);
      os := os + o.text;
      os := os + " - " + pr.literal(h.file) + " " + pr.literal(h.function_) + ": " + Decimal(h.line) + "\n";
      o := o.(text := os);
      assert memory[..][..bytesUsed] == memory[..bytesUsed];
      if ProperHeader(header) && (forall i :: 0 <= i < |args| ==> Proper(args[i])) {
        LineRoundTrip(pr, memory[..], header, args);
      }
    }
  }

  lemma ArgAdded(h: Header, args: seq<Arg>, a: Arg)
    ensures EncodeHeader(h) + EncodeAll(args + [a]) == EncodeHeader(h) + EncodeAll(args) + EncodeArg(a)
    ensures a == Text([]) ==> EncodeAll(args + [a]) == EncodeAll(args)
  {
    assert (args + [a])[..|args|] == args;
  }

  lemma NoResize(doubling: bool, s: Space)
    requires s.used <= s.capacity
    ensures Encoded(doubling, s, 0) == s
  {
  }
}
