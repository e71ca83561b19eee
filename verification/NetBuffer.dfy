// net::Buffer of mengSen/net/Buffer.h: a vector with a read and a write index, used as
// a queue of bytes.
module NetBuffer {
  import opened Machine
  import opened BigEndian
  import opened BufferLayout

  class Buffer {
    var data: array<byte>
    var readerIndex: nat
    var writerIndex: nat

    ghost function Zones(): Layout
      reads this
    {
      Layout(data.Length, readerIndex, writerIndex)
    }

    ghost predicate Valid()
      reads this
    {
      Zones().Proper()
    }

    /** The readable bytes. */
    ghost function Contents(): seq<byte>
      reads this, data
      requires Valid()
    {
      data[readerIndex..writerIndex]
    }

    constructor (initialSize: nat)
      ensures Valid() && fresh(data) && Contents() == [] && Zones() == Start(initialSize)
    {
      data := new byte[initialSize + CHEAP_PREPEND](_ => 0);
      readerIndex, writerIndex := CHEAP_PREPEND, CHEAP_PREPEND;
    }

    function ReadableBytes(): int
      reads this
    {
      writerIndex - readerIndex
    }

    function WritableBytes(): int
      reads this
    {
      data.Length - writerIndex
    }

    // ------------------------------------------------------------------------ space

    /** vector::resize to a larger size */
    method Resize(size: nat)
      requires Valid() && size >= data.Length
      modifies this`data
      ensures fresh(data) && data.Length == size && data[..old(data.Length)] == old(data[..])
    {
      var larger := new byte[size](_ => 0);
      forall i | 0 <= i < data.Length {
        larger[i] := data[i];
      }
      data := larger;
    }

    /** The readable bytes move to the front; the copy goes upwards within the same vector. */
    method Compact()
      requires Valid() && CHEAP_PREPEND < readerIndex
      modifies this`readerIndex, this`writerIndex, data
      ensures Valid() && Contents() == old(Contents())
      ensures Zones() == Layout(data.Length, CHEAP_PREPEND, CHEAP_PREPEND + old(Zones()).Readable())
    {
      ghost var bytes := Contents();
      var readable := ReadableBytes();
      var from, to, i := readerIndex, writerIndex, 0;
      while i < readable
        invariant 0 <= i <= readable && readerIndex == from && writerIndex == to
        invariant forall k :: 0 <= k < i ==> data[CHEAP_PREPEND + k] == bytes[k]
        invariant forall k :: i <= k < readable ==> data[from + k] == bytes[k]
      {
        data[CHEAP_PREPEND + i] := data[from + i];
        i := i + 1;
      }
      readerIndex := CHEAP_PREPEND;
      writerIndex := readerIndex + readable;
    }

    method MakeSpace(len: nat)
      requires Valid() && WritableBytes() < len
      modifies this, data
      ensures Valid() && (data == old(data) || fresh(data))
      ensures Contents() == old(Contents()) && Zones() == BufferLayout.MakeSpace(old(Zones()), len)
    {
      if WritableBytes() + readerIndex < len + CHEAP_PREPEND {
        ghost var before := data[..];
        Resize(writerIndex + len);
        SameSlice(before, data[..], readerIndex, writerIndex);
      } else {
        CompactionMovesDown(Zones(), len);
        assert CHEAP_PREPEND < readerIndex;
        Compact();
      }
    }

    method EnsureWritableBytes(len: nat)
      requires Valid()
      modifies this, data
      ensures Valid() && (data == old(data) || fresh(data))
      ensures Contents() == old(Contents()) && Zones() == EnsureWritable(old(Zones()), len)
      ensures WritableBytes() >= len
    {
      EnsureWritableWorks(Zones(), len);
      if WritableBytes() < len {
        MakeSpace(len);
      }
    }

    // ---------------------------------------------------------------------- writing

    /** std::copy into the vector */
    method CopyIn(bytes: seq<byte>, at: nat)
      requires at + |bytes| <= data.Length
      modifies data
      ensures data[at..at + |bytes|] == bytes
      ensures data[..at] == old(data[..at]) && data[at + |bytes|..] == old(data[at + |bytes|..])
    {
      forall i | 0 <= i < |bytes| {
        data[at + i] := bytes[i];
      }
    }

    /** Bytes stored behind the write index become readable. */
    method Fill(bytes: seq<byte>)
      requires Valid() && |bytes| <= WritableBytes()
      modifies this`writerIndex, data
      ensures Valid() && Contents() == old(Contents()) + bytes
      ensures Zones() == old(Zones()).(writer := old(writerIndex) + |bytes|)
    {
      ghost var front := data[..writerIndex];
      CopyIn(bytes, writerIndex);
      Extended(data[..], front, readerIndex, writerIndex, bytes);
      writerIndex := writerIndex + |bytes|;
    }

    method Append(bytes: seq<byte>)
      requires Valid()
      modifies this, data
      ensures Valid() && (data == old(data) || fresh(data))
      ensures Contents() == old(Contents()) + bytes && Zones() == AppendTo(old(Zones()), |bytes|)
    {
      hide EnsureWritable;
      EnsureWritableBytes(|bytes|);
      Fill(bytes);
    }

    /** hasWritten: bytes stored directly behind the write index become readable. */
    method HasWritten(len: nat)
      requires Valid() && len <= WritableBytes()
      modifies this`writerIndex
      ensures Valid() && Contents() == old(Contents()) + data[old(writerIndex)..old(writerIndex) + len]
      ensures Zones() == Step(old(Zones()), Written(len))
    {
      writerIndex := writerIndex + len;
    }

    method Unwrite(len: nat)
      requires Valid() && len <= ReadableBytes()
      modifies this`writerIndex
      ensures Valid() && Contents() == old(Contents()[..|Contents()| - len])
      ensures Zones() == Step(old(Zones()), BufferLayout.Unwrite(len))
    {
      SliceOfSlice(data[..], readerIndex, writerIndex, writerIndex - readerIndex - len);
      writerIndex := writerIndex - len;
    }

    method Prepend(bytes: seq<byte>)
      requires Valid() && |bytes| <= readerIndex
      modifies this`readerIndex, data
      ensures Valid() && Contents() == bytes + old(Contents())
      ensures Zones() == Step(old(Zones()), BufferLayout.Prepend(|bytes|))
    {
      ghost var before := Contents();
      readerIndex := readerIndex - |bytes|;
      ghost var back := data[readerIndex + |bytes|..];
      CopyIn(bytes, readerIndex);
      assert data[readerIndex + |bytes|..writerIndex] == back[..|before|] == before;
      assert data[readerIndex..writerIndex] ==
             data[readerIndex..readerIndex + |bytes|] + data[readerIndex + |bytes|..writerIndex];
    }

    // ---------------------------------------------------------------------- reading

    method RetrieveAll()
      requires Valid()
      modifies this`readerIndex, this`writerIndex
      ensures Valid() && Contents() == []
      ensures Zones() == Layout(data.Length, CHEAP_PREPEND, CHEAP_PREPEND)
    {
      readerIndex, writerIndex := CHEAP_PREPEND, CHEAP_PREPEND;
    }

    method Retrieve(len: nat)
      requires Valid() && len <= ReadableBytes()
      modifies this`readerIndex, this`writerIndex
      ensures Valid() && Contents() == old(Contents()[len..]) && Zones() == BufferLayout.Retrieve(old(Zones()), len)
    {
      SliceOfSlice(data[..], readerIndex, writerIndex, len);
      if len < ReadableBytes() {
        readerIndex := readerIndex + len;
      } else {
        RetrieveAll();
      }
    }

    method RetrieveAsString(len: nat) returns (bytes: seq<byte>)
      requires Valid() && len <= ReadableBytes()
      modifies this`readerIndex, this`writerIndex
      ensures Valid() && bytes + Contents() == old(Contents()) && |bytes| == len
      ensures Zones() == BufferLayout.Retrieve(old(Zones()), len)
    {
      bytes := data[readerIndex..readerIndex + len];
      Retrieve(len);
    }

    // --------------------------------------------------------------------- integers

    /** appendInt8 to appendInt64: n is the width in bytes. */
    method AppendInt(x: int, n: nat)
      requires Valid() && n in {1, 2, 4, 8} && FitsSigned(x, n)
      modifies this, data
      ensures Valid() && (data == old(data) || fresh(data))
      ensures Contents() == old(Contents()) + Encode(x, n) && Zones() == AppendTo(old(Zones()), n)
    {
      Append(Encode(x, n));
    }

    method PrependInt(x: int, n: nat)
      requires Valid() && n in {1, 2, 4, 8} && FitsSigned(x, n) && n <= readerIndex
      modifies this`readerIndex, data
      ensures Valid() && Contents() == Encode(x, n) + old(Contents())
      ensures Zones() == Step(old(Zones()), BufferLayout.Prepend(n))
    {
      Prepend(Encode(x, n));
    }

    method PeekInt(n: nat) returns (x: int)
      requires Valid() && n in {1, 2, 4, 8} && ReadableBytes() >= n
      ensures x == Signed(Contents()[..n]) && FitsSigned(x, n)
      ensures forall y, rest :: FitsSigned(y, n) && Contents() == Encode(y, n) + rest ==> x == y
    {
      x := Signed(data[readerIndex..readerIndex + n]);
      SliceOfSlice(data[..], readerIndex, writerIndex, n);
      EncodeSigned(Contents()[..n]);
      SignedRoundTrip(x, n);
      forall y, rest | FitsSigned(y, n) && Contents() == Encode(y, n) + rest ensures x == y {
        assert Contents()[..n] == Encode(y, n);
        SignedRoundTrip(y, n);
      }
    }

    method ReadInt(n: nat) returns (x: int)
      requires Valid() && n in {1, 2, 4, 8} && ReadableBytes() >= n
      modifies this`readerIndex, this`writerIndex
      ensures Valid() && FitsSigned(x, n) && old(Contents()) == Encode(x, n) + Contents()
      ensures Zones() == BufferLayout.Retrieve(old(Zones()), n)
    {
      x := PeekInt(n);
      EncodeSigned(Contents()[..n]);
      Retrieve(n);
    }

    // -------------------------------------------------------------- shrink and readFd

    method Swap(rhs: Buffer)
      requires Valid() && rhs.Valid()
      modifies this, rhs
      ensures Valid() && rhs.Valid() && data == old(rhs.data) && rhs.data == old(data)
      ensures Contents() == old(rhs.Contents()) && Zones() == old(rhs.Zones())
      ensures rhs.Contents() == old(Contents()) && rhs.Zones() == old(Zones())
    {
      data, rhs.data := rhs.data, data;
      readerIndex, rhs.readerIndex := rhs.readerIndex, readerIndex;
      writerIndex, rhs.writerIndex := rhs.writerIndex, writerIndex;
    }

    method Shrink(reserve: nat)
      requires Valid()
      modifies this
      ensures Valid() && fresh(data) && Contents() == old(Contents())
      ensures WritableBytes() >= reserve
      ensures var n := old(Zones()).Readable();
              Zones() == Exec(INITIAL_SIZE, [Reserve(n + reserve), BufferLayout.Append(n)]).layout
    {
      hide Exec, AppendTo, EnsureWritable;
      var bytes := data[readerIndex..writerIndex];
      var other := new Buffer(INITIAL_SIZE);
      other.EnsureWritableBytes(|bytes| + reserve);
      assert other.Contents() == [];
      other.Append(bytes);
      assert other.Contents() == bytes;
      ReserveThenAppend(INITIAL_SIZE, |bytes|, reserve);
      Swap(other);
    }

    /**
     * readFd: readv has delivered `received`, first into the writable zone and then into
     * a stack buffer, or has failed with n < 0.
     */
    method ReadFd(n: int, received: seq<byte>, errno: int) returns (r: int, savedErrno: int)
      requires Valid() && (n >= 0 ==> n == |received| <= ReceiveLimit(Zones()))
      modifies this, data
      ensures Valid() && (data == old(data) || fresh(data)) && r == n
      ensures n < 0 ==> savedErrno == errno && Contents() == old(Contents()) && Zones() == old(Zones())
      ensures n >= 0 ==> Contents() == old(Contents()) + received && Zones() == ReceiveInto(old(Zones()), n)
    {
      hide AppendTo, EnsureWritable;
      r, savedErrno := n, 0;
      if n < 0 {
        savedErrno := errno;
        return;
      }
      var writable := WritableBytes();
      if n <= writable {
        Fill(received);
      } else {
        assert received == received[..writable] + received[writable..];
        Fill(received[..writable]);
        Append(received[writable..]);
      }
    }
  }

  lemma SliceOfSlice(s: seq<byte>, lo: nat, hi: nat, n: nat)
    requires lo + n <= hi <= |s|
    ensures s[lo..hi][..n] == s[lo..lo + n] && s[lo..hi][n..] == s[lo + n..hi]
  {
  }

  lemma SameSlice(s: seq<byte>, t: seq<byte>, lo: nat, hi: nat)
    requires lo <= hi <= |s| <= |t| && t[..|s|] == s
    ensures t[lo..hi] == s[lo..hi]
  {
    assert t[..|s|][lo..hi] == t[lo..hi];
  }

  /** Bytes copied behind the readable ones extend them. */
  lemma Extended(data: seq<byte>, front: seq<byte>, reader: nat, writer: nat, bytes: seq<byte>)
    requires reader <= writer == |front| && writer + |bytes| <= |data|
    requires data[..writer] == front && data[writer..writer + |bytes|] == bytes
    ensures data[reader..writer + |bytes|] == front[reader..] + bytes
  {
    assert data[reader..writer] == front[reader..];
    assert data[reader..writer + |bytes|] == data[reader..writer] + data[writer..writer + |bytes|];
  }

  lemma ReserveThenAppend(initialSize: nat, n: nat, reserve: nat)
    ensures var r := AppendTo(EnsureWritable(Start(initialSize), n + reserve), n);
            && Exec(initialSize, [Reserve(n + reserve), BufferLayout.Append(n)]).layout == r
            && r.Proper() && r.Writable() >= reserve
  {
    var op1, op2 := Reserve(n + reserve), BufferLayout.Append(n);
    assert [op1, op2][..1] == [op1] && [op1][..0] == [];
    assert Exec(initialSize, [op1]).layout == Step(Start(initialSize), op1);
    EnsureWritableWorks(Start(initialSize), n + reserve);
  }
}
