// The stream of mengSen/base/LogStream.h: a fixed buffer that takes a piece of text
// whole or not at all, and integers formatted directly into it.
module LogStream {
  import opened Machine
  import opened Numerals
  import opened Sequences

  const SMALL_BUFFER: nat := 4000
  const MAX_NUMERIC_SIZE: nat := 32

  // ---------------------------------------------------------------------- convert

  /** std::reverse(buf + lo, buf + hi) */
  method Reverse(buf: array<char>, lo: nat, hi: nat)
    requires lo <= hi <= buf.Length
    modifies buf
    ensures buf[lo..hi] == Reversed(old(buf[lo..hi]))
    ensures forall k :: 0 <= k < lo || hi <= k < buf.Length ==> buf[k] == old(buf[k])
  {
    ghost var was := buf[..];
    var i, j := lo, hi;
    while i + 1 < j
      invariant lo <= i <= j <= hi && i - lo == hi - j
      invariant forall k :: lo <= k < i ==> buf[k] == was[lo + hi - 1 - k]
      invariant forall k :: j <= k < hi ==> buf[k] == was[lo + hi - 1 - k]
      invariant forall k :: i <= k < j ==> buf[k] == was[k]
      invariant forall k :: 0 <= k < lo || hi <= k < buf.Length ==> buf[k] == was[k]
    {
      j := j - 1;
      buf[i], buf[j] := buf[j], buf[i];
      i := i + 1;
    }
    forall k | 0 <= k < hi - lo ensures buf[lo..hi][k] == Reversed(was[lo..hi])[k] {
      assert buf[lo + k] == was[hi - 1 - k] == was[lo..hi][hi - lo - 1 - k];
    }
  }

  lemma ReversedSnoc(s: string, c: char)
    ensures Reversed(s + [c]) == [c] + Reversed(s)
  {
  }

  function Magnitude(v: int): nat {
    if v < 0 then -v else v
  }

  /** Taking the last decimal digit off a signed value takes it off its magnitude. */
  lemma SignedStep(i: int)
    ensures -10 < CMod(i, 10) < 10
    ensures Magnitude(CDiv(i, 10)) == Quotient(Magnitude(i), 10)
    ensures Magnitude(CMod(i, 10)) == Remainder(Magnitude(i), 10)
  {
  }

  /** The digits of n that are still to be written, once those in `written` have been. */
  predicate Partial(n: nat, base: nat, rest: nat, more: bool, written: string)
    requires Base(base)
  {
    Numeral(n, base) == (if more then Numeral(rest, base) else "") + Reversed(written)
  }

  lemma PartialStep(n: nat, base: nat, rest: nat, written: string)
    requires Base(base) && Partial(n, base, rest, true, written)
    ensures var rest' := Quotient(rest, base);
            Partial(n, base, rest', rest' != 0, written + [DIGITS_HEX[Remainder(rest, base)]])
    ensures |written| < |Numeral(n, base)|
    ensures rest > 0 ==> Quotient(rest, base) < rest
    ensures rest == 0 ==> Quotient(rest, base) == 0
  {
    var c := DIGITS_HEX[Remainder(rest, base)];
    ReversedSnoc(written, c);
    LastDigit(rest, base);
    var front := if Quotient(rest, base) != 0 then Numeral(Quotient(rest, base), base) else "";
    assert (front + [c]) + Reversed(written) == front + ([c] + Reversed(written));
  }

  lemma LastDigit(n: nat, base: nat)
    requires Base(base)
    ensures Numeral(n, base) == (if Quotient(n, base) != 0 then Numeral(Quotient(n, base), base) else "")
                                + [DIGITS_HEX[Remainder(n, base)]]
    ensures n > 0 ==> Quotient(n, base) < n
    ensures n == 0 ==> Quotient(n, base) == 0
  {
    hide Quotient, Remainder;
    if n < base {
      SmallQuotient(n, base);
    } else {
      QuotientShrinks(n, base);
    }
  }

  lemma SmallQuotient(n: nat, base: nat)
    requires n < base
    ensures Quotient(n, base) == 0 && Remainder(n, base) == n
  {
  }

  /** zero[lsd], where zero points into the middle of the digit table */
  function Zero(lsd: int): char
    requires -10 < lsd < 10
  {
    DIGITS[9 + lsd]
  }

  lemma ZeroIsDigit(lsd: int)
    requires -10 < lsd < 10
    ensures Zero(lsd) == DIGITS_HEX[Magnitude(lsd)]
  {
    ZeroTable(lsd);
  }

  /** The terminator behind the digits, then the reversal of what was written. */
  method Finish(buf: array<char>, start: nat, p: nat)
    requires start <= p < buf.Length
    modifies buf
    ensures buf[start..p] == Reversed(old(buf[start..p])) && buf[p] == '\0'
    ensures forall k :: 0 <= k < start || p < k < buf.Length ==> buf[k] == old(buf[k])
  {
    ghost var was := buf[start..p];
    buf[p] := '\0';
    assert buf[start..p] == was;
    Reverse(buf, start, p);
  }

  /** convert's loop: the digits of `value`, whatever its sign, least significant first. */
  method WriteDigits(buf: array<char>, start: nat, value: int) returns (p: nat)
    requires start + |Numeral(Magnitude(value), 10)| <= buf.Length
    modifies buf
    ensures start <= p <= buf.Length && Reversed(buf[start..p]) == Numeral(Magnitude(value), 10)
    ensures forall k :: 0 <= k < start || p <= k < buf.Length ==> buf[k] == old(buf[k])
  {
    hide Numeral, Quotient, Remainder, Partial, CDiv, CMod, Zero;
    PartialStart(Magnitude(value), 10);
    var i, more := value, true;
    p := start;
    assert buf[start..p] == [];
    while more
      invariant start <= p && p - start <= |Numeral(Magnitude(value), 10)|
      invariant Partial(Magnitude(value), 10, Magnitude(i), more, buf[start..p])
      invariant forall k :: 0 <= k < start || p <= k < buf.Length ==> buf[k] == old(buf[k])
      decreases more, Magnitude(i)
    {
      SignedStep(i);
      PartialStep(Magnitude(value), 10, Magnitude(i), buf[start..p]);
      var lsd := CMod(i, 10);
      ZeroIsDigit(lsd);
      ghost var written := buf[start..p];
      i := CDiv(i, 10);
      buf[p] := Zero(lsd);
      p := p + 1;
      assert buf[start..p] == written + [Zero(lsd)];
      more := i != 0;
    }
    PartialEnd(Magnitude(value), 10, Magnitude(i), buf[start..p]);
  }

  /** The sign, written behind the digits. */
  method WriteSign(buf: array<char>, start: nat, p: nat, negative: bool) returns (end: nat)
    requires start <= p < buf.Length
    modifies buf
    ensures end == if negative then p + 1 else p
    ensures Reversed(buf[start..end]) == if negative then "-" + Reversed(old(buf[start..p])) else Reversed(old(buf[start..p]))
    ensures forall k :: 0 <= k < start || end <= k < buf.Length ==> buf[k] == old(buf[k])
  {
    ghost var was := buf[..];
    end := p;
    if negative {
      buf[end] := '-';
      end := end + 1;
      assert buf[start..end] == was[start..p] + ['-'];
      ReversedSnoc(was[start..p], '-');
    }
  }

  /** Prints `value` in decimal at buf + start; the caller provides the room. */
  method Convert(buf: array<char>, start: nat, value: int) returns (len: nat)
    requires start + |Decimal(value)| < buf.Length
    modifies buf
    ensures len == |Decimal(value)| && buf[start..start + len] == Decimal(value)
    ensures buf[start + len] == '\0'
    ensures forall k :: 0 <= k < start || start + len < k < buf.Length ==> buf[k] == old(buf[k])
  {
    hide Numeral, Reversed;
    assert Decimal(value) == if value < 0 then "-" + Numeral(Magnitude(value), 10) else Numeral(Magnitude(value), 10);
    var p := WriteDigits(buf, start, value);
    p := WriteSign(buf, start, p, value < 0);
    Finish(buf, start, p);
    len := p - start;
  }

  lemma PartialStart(n: nat, base: nat)
    requires Base(base)
    ensures Partial(n, base, n, true, [])
  {
    assert Numeral(n, base) + Reversed([]) == Numeral(n, base);
  }

  lemma PartialEnd(n: nat, base: nat, rest: nat, written: string)
    requires Base(base) && Partial(n, base, rest, false, written)
    ensures Reversed(written) == Numeral(n, base)
  {
    assert "" + Reversed(written) == Reversed(written);
  }

  /** Prints `value` in hexadecimal at buf + start. */
  method ConvertHex(buf: array<char>, start: nat, value: nat) returns (len: nat)
    requires start + |Numeral(value, 16)| < buf.Length
    modifies buf
    ensures len == |Numeral(value, 16)| && buf[start..start + len] == Numeral(value, 16)
    ensures buf[start + len] == '\0'
    ensures forall k :: 0 <= k < start || start + len < k < buf.Length ==> buf[k] == old(buf[k])
  {
    hide Numeral, Quotient, Remainder, Partial;
    PartialStart(value, 16);
    var i, p, more := value, start, true;
    assert buf[start..p] == [];
    while more
      invariant start <= p && p - start <= |Numeral(value, 16)|
      invariant Partial(value, 16, i, more, buf[start..p])
      invariant forall k :: 0 <= k < start || p <= k < buf.Length ==> buf[k] == old(buf[k])
      decreases more, i
    {
      PartialStep(value, 16, i, buf[start..p]);
      DivMod(i, 16);
      var lsd := Remainder(i, 16);
      ghost var written := buf[start..p];
      i := Quotient(i, 16);
      buf[p] := DIGITS_HEX[lsd];
      p := p + 1;
      assert buf[start..p] == written + [DIGITS_HEX[lsd]];
      more := i != 0;
    }
    PartialEnd(value, 16, i, buf[start..p]);
    Finish(buf, start, p);
    len := p - start;
  }

  // ------------------------------------------------------------------ FixedBuffer

  class FixedBuffer {
    const data: array<char>
    var cur: nat
    ghost var pieces: seq<string>    // what has been appended since the last reset

    /** One byte always stays free, and the text is made of whole pieces. */
    ghost predicate Valid()
      reads this, data
    {
      cur < data.Length && data[..cur] == Flatten(pieces)
    }

    ghost function Contents(): string
      reads this, data
      requires Valid()
    {
      data[..cur]
    }

    constructor (size: nat)
      requires size > 0
      ensures Valid() && fresh(data) && data.Length == size && pieces == [] && cur == 0
    {
      data := new char[size];
      cur, pieces := 0, [];
    }

    function Avail(): int
      reads this
    {
      data.Length - cur
    }

    method Append(text: string)
      requires Valid()
      modifies this`cur, this`pieces, data
      ensures Valid()
      ensures pieces == if old(Avail()) > |text| then old(pieces) + [text] else old(pieces)
      ensures Contents() == if old(Avail()) > |text| then old(Contents()) + text else old(Contents())
    {
      if Avail() > |text| {
        forall k | 0 <= k < |text| {
          data[cur + k] := text[k];
        }
        assert data[cur..cur + |text|] == text;
        assert data[..cur + |text|] == data[..cur] + data[cur..cur + |text|];
        FlattenSnoc(pieces, text);
        cur, pieces := cur + |text|, pieces + [text];
      }
    }

    /** add: the text written behind `cur` becomes part of the contents. */
    method Add(len: nat)
      requires Valid() && cur + len < data.Length
      modifies this`cur, this`pieces
      ensures Valid() && cur == old(cur) + len
      ensures pieces == old(pieces) + [data[old(cur)..cur]]
    {
      FlattenSnoc(pieces, data[cur..cur + len]);
      assert data[..cur + len] == data[..cur] + data[cur..cur + len];
      pieces := pieces + [data[cur..cur + len]];
      cur := cur + len;
    }

    method Reset()
      modifies this`cur, this`pieces
      requires Valid()
      ensures Valid() && pieces == [] && cur == 0
    {
      cur, pieces := 0, [];
    }

    /** debugString: the terminator always has a place. */
    method DebugString() returns (text: string)
      requires Valid()
      modifies data
      ensures Valid() && text == Contents() == old(Contents())
    {
      data[cur] := '\0';
      text := data[..cur];
    }
  }

  // -------------------------------------------------------------------- LogStream

  class LogStream {
    const buffer: FixedBuffer

    ghost predicate Valid()
      reads this, buffer, buffer.data
    {
      buffer.Valid()
    }

    constructor ()
      ensures Valid() && fresh(buffer) && fresh(buffer.data) && buffer.pieces == []
    {
      buffer := new FixedBuffer(SMALL_BUFFER);
    }

    /** operator<< for integers of any width up to 64 bits: the whole numeral or nothing. */
    method FormatInteger(v: int)
      requires Valid() && -TWO_63 <= v < TWO_64
      modifies buffer, buffer.data
      ensures Valid()
      ensures buffer.pieces == if old(buffer.Avail()) >= MAX_NUMERIC_SIZE then old(buffer.pieces) + [Decimal(v)]
                               else old(buffer.pieces)
    {
      hide Flatten, Decimal, Numeral;
      if buffer.Avail() >= MAX_NUMERIC_SIZE {
        WidthOf64Bits(v);
        var len := Convert(buffer.data, buffer.cur, v);
        buffer.Add(len);
      }
    }

    /** operator<<(const void*) */
    method FormatPointer(v: nat)
      requires Valid() && v < TWO_64
      modifies buffer, buffer.data
      ensures Valid()
      ensures buffer.pieces == if old(buffer.Avail()) >= MAX_NUMERIC_SIZE
                               then old(buffer.pieces) + ["0x" + Numeral(v, 16)]
                               else old(buffer.pieces)
    {
      hide Flatten, Decimal, Numeral;
      if buffer.Avail() >= MAX_NUMERIC_SIZE {
        WidthOf64Bits(v);
        var start := buffer.cur;
        ghost var before := buffer.data[..start];
        buffer.data[start], buffer.data[start + 1] := '0', 'x';
        assert buffer.data[..start + 2] == before + "0x";
        var len := ConvertHex(buffer.data, start + 2, v);
        assert buffer.data[..start + 2][..start] == before;
        assert buffer.data[..start] == buffer.data[..start + 2][..start];
        assert buffer.data[start..start + 2 + len] == "0x" + Numeral(v, 16) by {
          assert buffer.data[..start + 2][start..] == "0x";
          assert buffer.data[start..start + 2] == buffer.data[..start + 2][start..];
          assert buffer.data[start..start + 2 + len] == buffer.data[start..start + 2] + buffer.data[start + 2..start + 2 + len];
        }
        buffer.Add(len + 2);
      }
    }
  }

  /** Reading the appended piece gives the printed value back. */
  lemma FormattedIntegerReadsBack(v: int)
    requires -TWO_63 <= v < TWO_64
    ensures ParseDecimal(Decimal(v)) == Number(v) && |Decimal(v)| + 1 < MAX_NUMERIC_SIZE
  {
    DecimalRoundTrip(v);
    WidthOf64Bits(v);
  }
}
