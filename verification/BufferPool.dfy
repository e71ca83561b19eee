// The buffers of the asynchronous logger as objects with an array each, handed from
// owner to owner and never shared.
module BufferPool {
  import opened Sequences
  import opened LogStream
  import opened AsyncLogging

  /** The unique_ptrs to buffers, in the hands of the front ends and of the back end. */
  datatype Hands = Hands(
    current: FixedBuffer?, next: FixedBuffer?, buffers: seq<FixedBuffer>,
    spare1: FixedBuffer?, spare2: FixedBuffer?, toWrite: seq<FixedBuffer>)

  /** What they point to, as values. */
  datatype Pool = Pool(
    current: Pointer, next: Pointer, buffers: seq<Pointer>, spare1: Pointer, spare2: Pointer, toWrite: seq<Pointer>)

  function Some(b: FixedBuffer?): set<FixedBuffer> {
    if b == null then {} else {b}
  }

  function Elements(bs: seq<FixedBuffer>): set<FixedBuffer> {
    set b | b in bs
  }

  ghost function Owned(h: Hands): set<FixedBuffer> {
    Some(h.current) + Some(h.next) + Elements(h.buffers) + Some(h.spare1) + Some(h.spare2) + Elements(h.toWrite)
  }

  ghost predicate Distinct(bs: seq<FixedBuffer>) {
    forall i, j :: 0 <= i < j < |bs| ==> bs[i] != bs[j]
  }

  /** Every buffer has exactly one owner. */
  ghost predicate SoleOwners(h: Hands) {
    && Distinct(h.buffers) && Distinct(h.toWrite)
    && Some(h.current) !! Some(h.next) !! Elements(h.buffers) !! Some(h.spare1) !! Some(h.spare2) !! Elements(h.toWrite)
  }

  /** The buffers are of the right size, share no memory, and lie within `repr`. */
  ghost predicate Footprint(bs: set<FixedBuffer>, repr: set<object>) {
    && (forall b :: b in bs ==> b in repr && b.data in repr && b.data.Length == LARGE_BUFFER)
    && (forall b, c :: b in bs && c in bs && b != c ==> b.data != c.data)
  }

  ghost predicate Sound(h: Hands, repr: set<object>)
    reads repr
  {
    SoleOwners(h) && Footprint(Owned(h), repr) && forall b :: b in Owned(h) ==> b.Valid()
  }

  /** The buffer behind a unique_ptr, as a value. */
  ghost function View(b: FixedBuffer?): Pointer
    reads b, if b == null then {} else {b.data}
  {
    if b == null then Null
    else Owns(Buffer(if b.cur <= b.data.Length then b.data[..b.cur] else "", b.pieces))
  }

  ghost function Views(bs: seq<FixedBuffer>): (vs: seq<Pointer>)
    reads bs, set b | b in bs :: b.data
    ensures |vs| == |bs| && forall i :: 0 <= i < |bs| ==> vs[i] == View(bs[i])
  {
    if bs == [] then []
    else
      assert forall b :: b in bs[..|bs| - 1] ==> b in bs;
      Views(bs[..|bs| - 1]) + [View(bs[|bs| - 1])]
  }

  lemma InFootprint(h: Hands, repr: set<object>)
    requires Footprint(Owned(h), repr)
    ensures forall b :: b in h.buffers || b in h.toWrite ==> b in repr && b.data in repr
    ensures h.current != null ==> h.current in repr && h.current.data in repr
    ensures h.next != null ==> h.next in repr && h.next.data in repr
    ensures h.spare1 != null ==> h.spare1 in repr && h.spare1.data in repr
    ensures h.spare2 != null ==> h.spare2 in repr && h.spare2.data in repr
  {
  }

  ghost function Contents(h: Hands, repr: set<object>): Pool
    requires Sound(h, repr)
    reads repr
  {
    InFootprint(h, repr);
    Pool(View(h.current), View(h.next), Views(h.buffers), View(h.spare1), View(h.spare2), Views(h.toWrite))
  }

  // ------------------------------------------------------------------------- views

  lemma NullView(b: FixedBuffer?)
    ensures View(b).Null? <==> b == null
  {
  }

  lemma EmptyView(b: FixedBuffer?)
    requires View(b) == EMPTY
    ensures b != null && (b.Valid() ==> b.cur == 0)
  {
  }

  /** Null pointers and their views. */
  lemma Nulls(h: Hands, repr: set<object>)
    requires Sound(h, repr)
    ensures var p := Contents(h, repr);
            && (h.current == null <==> p.current.Null?) && (h.next == null <==> p.next.Null?)
            && (h.spare1 == null <==> p.spare1.Null?) && (h.spare2 == null <==> p.spare2.Null?)
            && |p.buffers| == |h.buffers| && |p.toWrite| == |h.toWrite|
  {
    hide Sound, View;
    NullView(h.current);
    NullView(h.next);
    NullView(h.spare1);
    NullView(h.spare2);
  }

  /** The text of a buffer to write. */
  lemma TextOf(h: Hands, repr: set<object>, i: nat)
    requires Sound(h, repr) && i < |h.toWrite|
    ensures var b := h.toWrite[i];
            && b in repr && b.cur <= b.data.Length
            && |Contents(h, repr).toWrite| == |h.toWrite|
            && Contents(h, repr).toWrite[i] == Owns(Buffer(b.data[..b.cur], b.pieces))
  {
    assert h.toWrite[i] in Owned(h);
  }

  /** The capacity left in currentBuffer_. */
  lemma Room(h: Hands, repr: set<object>)
    requires Sound(h, repr) && h.current != null
    ensures h.current in repr && h.current.data in repr
    ensures Contents(h, repr).current.Owns? && h.current.Avail() == Avail(Contents(h, repr).current.buffer)
  {
    assert h.current in Owned(h);
  }

  // -------------------------------------------------------------- moving pointers

  lemma ElementsSnoc(bs: seq<FixedBuffer>, b: FixedBuffer)
    ensures Elements(bs + [b]) == Elements(bs) + {b}
    ensures Distinct(bs) && b !in Elements(bs) ==> Distinct(bs + [b])
  {
  }

  lemma ElementsOfPrefix(bs: seq<FixedBuffer>, n: nat)
    requires n <= |bs|
    ensures Elements(bs[..n]) <= Elements(bs)
    ensures Distinct(bs) ==> Distinct(bs[..n])
    ensures Distinct(bs) && n < |bs| ==> bs[n] !in Elements(bs[..n]) && bs[n] in Elements(bs)
  {
  }

  /** Pointers may be dropped or rearranged as long as every buffer keeps one owner. */
  lemma Moved(h: Hands, repr: set<object>, h': Hands)
    requires Sound(h, repr) && SoleOwners(h') && Owned(h') <= Owned(h)
    ensures Sound(h', repr)
  {
    hide SoleOwners, Owned;
  }

  /** append: currentBuffer_ goes to buffers_ and `other` takes its place. */
  function Rolled(h: Hands, other: FixedBuffer): Hands {
    h.(buffers := if h.current == null then h.buffers else h.buffers + [h.current], current := other, next := null)
  }

  lemma RolledOwners(h: Hands, other: FixedBuffer)
    requires SoleOwners(h) && h.current != null && (h.next == other || (h.next == null && other !in Owned(h)))
    ensures SoleOwners(Rolled(h, other)) && Owned(Rolled(h, other)) == Owned(h) + {other}
  {
    hide Elements;
    ElementsSnoc(h.buffers, h.current);
  }

  lemma RollToNext(h: Hands, repr: set<object>)
    requires Sound(h, repr) && h.current != null && h.next != null
    ensures Sound(Rolled(h, h.next), repr)
    ensures var p := Contents(h, repr);
            Contents(Rolled(h, h.next), repr) == p.(buffers := p.buffers + [p.current], current := p.next, next := Null)
  {
    hide SoleOwners, Footprint, View, Elements;
    RolledOwners(h, h.next);
    assert Owned(h) + {h.next} == Owned(h);
    Moved(h, repr, Rolled(h, h.next));
    NullView(null);
    assert Views(h.buffers + [h.current]) == Views(h.buffers) + [View(h.current)];
  }

  lemma RollToNew(h: Hands, repr: set<object>, b: FixedBuffer)
    requires Sound(h, repr) && h.current != null && h.next == null
    requires b !in repr && b.data !in repr && b.data.Length == LARGE_BUFFER && b.Valid() && View(b) == EMPTY
    ensures Sound(Rolled(h, b), repr + {b, b.data})
    ensures var p := Contents(h, repr);
            Contents(Rolled(h, b), repr + {b, b.data}) ==
            p.(buffers := p.buffers + [p.current], current := EMPTY, next := Null)
  {
    hide SoleOwners, View, Elements, Owned;
    RolledOwners(h, b);
    NullView(null);
    assert Views(h.buffers + [h.current]) == Views(h.buffers) + [View(h.current)];
  }

  /** The critical section of a round. */
  function Swapped(h: Hands): Hands {
    h.(buffers := h.toWrite, toWrite := if h.current == null then h.buffers else h.buffers + [h.current],
       current := h.spare1, spare1 := null,
       next := if h.next == null then h.spare2 else h.next, spare2 := if h.next == null then null else h.spare2)
  }

  lemma SwappedOwners(h: Hands)
    requires SoleOwners(h) && h.current != null
    ensures SoleOwners(Swapped(h)) && Owned(Swapped(h)) == Owned(h)
  {
    hide Elements;
    ElementsSnoc(h.buffers, h.current);
  }

  lemma SwapMoves(h: Hands, repr: set<object>)
    requires Sound(h, repr) && h.current != null
    ensures Sound(Swapped(h), repr)
    ensures var p := Contents(h, repr);
            Contents(Swapped(h), repr) ==
            Pool(p.spare1, if p.next.Null? then p.spare2 else p.next, p.toWrite,
                 Null, if p.next.Null? then Null else p.spare2, p.buffers + [p.current])
  {
    hide SoleOwners, Footprint, View, Elements, Owned;
    SwappedOwners(h);
    Moved(h, repr, Swapped(h));
    NullView(null);
    NullView(h.next);
    assert Views(h.buffers + [h.current]) == Views(h.buffers) + [View(h.current)];
  }

  function Truncated(h: Hands, n: nat): Hands {
    h.(toWrite := Prefix(h.toWrite, n))
  }

  lemma TruncateMoves(h: Hands, repr: set<object>, n: nat)
    requires Sound(h, repr)
    ensures Sound(Truncated(h, n), repr)
    ensures Contents(Truncated(h, n), repr) == Contents(h, repr).(toWrite := Prefix(Contents(h, repr).toWrite, n))
  {
    hide Footprint, View, Elements;
    if n < |h.toWrite| {
      ElementsOfPrefix(h.toWrite, n);
      Moved(h, repr, Truncated(h, n));
      assert Views(h.toWrite[..n]) == Views(h.toWrite)[..n];
    }
  }

  /** A spare takes the last of the buffers written. */
  function Refilled(h: Hands, first: bool): Hands {
    if h.toWrite == [] then h
    else
      var last := |h.toWrite| - 1;
      var h1 := h.(toWrite := h.toWrite[..last]);
      if first then h1.(spare1 := h.toWrite[last]) else h1.(spare2 := h.toWrite[last])
  }

  lemma RefillMoves(h: Hands, repr: set<object>, first: bool)
    requires Sound(h, repr) && h.toWrite != [] && if first then h.spare1 == null else h.spare2 == null
    ensures Sound(Refilled(h, first), repr)
    ensures var p, p' := Contents(h, repr), Contents(Refilled(h, first), repr);
            p' == p.(toWrite := p.toWrite[..|p.toWrite| - 1], spare1 := p'.spare1, spare2 := p'.spare2)
            && (if first then p'.spare2 == p.spare2 else p'.spare1 == p.spare1)
  {
    hide Footprint, View, Elements;
    var last := |h.toWrite| - 1;
    ElementsOfPrefix(h.toWrite, last);
    Moved(h, repr, Refilled(h, first));
    assert Views(h.toWrite[..last]) == Views(h.toWrite)[..last];
  }

  // ------------------------------------------------------------------ fresh buffers

  method NewBuffer() returns (b: FixedBuffer)
    ensures fresh(b) && fresh(b.data) && b.Valid() && b.data.Length == LARGE_BUFFER && View(b) == EMPTY
  {
    b := new FixedBuffer(LARGE_BUFFER);
  }

  lemma FourOwners(b1: FixedBuffer, b2: FixedBuffer, b3: FixedBuffer, b4: FixedBuffer)
    requires b1 != b2 && b1 != b3 && b1 != b4 && b2 != b3 && b2 != b4 && b3 != b4
    ensures SoleOwners(Hands(b1, b2, [], b3, b4, [])) && Owned(Hands(b1, b2, [], b3, b4, [])) == {b1, b2, b3, b4}
  {
  }

  lemma FourBuffers(b1: FixedBuffer, b2: FixedBuffer, b3: FixedBuffer, b4: FixedBuffer)
    requires b1 != b2 && b1 != b3 && b1 != b4 && b2 != b3 && b2 != b4 && b3 != b4
    requires b1.data != b2.data && b1.data != b3.data && b1.data != b4.data
    requires b2.data != b3.data && b2.data != b4.data && b3.data != b4.data
    requires forall b :: b in {b1, b2, b3, b4} ==> b.data.Length == LARGE_BUFFER && b.Valid() && View(b) == EMPTY
    ensures var h, repr := Hands(b1, b2, [], b3, b4, []), {b1, b1.data, b2, b2.data, b3, b3.data, b4, b4.data};
            Sound(h, repr) && Contents(h, repr) == Pool(EMPTY, EMPTY, [], EMPTY, EMPTY, [])
  {
    hide SoleOwners, Owned, View, FixedBuffer.Valid;
    FourOwners(b1, b2, b3, b4);
  }

  /** The asserts at the head of a round. */
  lemma SparesEmpty(h: Hands, repr: set<object>)
    requires Sound(h, repr)
    requires Contents(h, repr).spare1 == EMPTY && Contents(h, repr).spare2 == EMPTY
    ensures h.spare1 != null && h.spare1.cur == 0 && h.spare2 != null && h.spare2.cur == 0
  {
    hide SoleOwners, Footprint, Flatten;
    EmptyView(h.spare1);
    EmptyView(h.spare2);
  }

  lemma SpareInRepr(h: Hands, repr: set<object>, b: FixedBuffer)
    requires Sound(h, repr) && (b == h.spare1 || b == h.spare2)
    ensures b in repr && b.data in repr
  {
    hide SoleOwners, Owned;
    InFootprint(h, repr);
  }

  // ------------------------------------------------------------- changing one buffer

  /** `b` is in one place only, and so is its memory. */
  lemma Alone(h: Hands, repr: set<object>, b: FixedBuffer)
    requires SoleOwners(h) && Footprint(Owned(h), repr) && b in Some(h.current) + Some(h.spare1) + Some(h.spare2)
    ensures b in repr && b.data in repr && b.data.Length == LARGE_BUFFER && b in Owned(h)
    ensures b !in h.buffers && b !in h.toWrite && b != h.next
    ensures forall c :: c in h.buffers ==> c in Owned(h) && c.data != b.data
    ensures forall c :: c in h.toWrite ==> c in Owned(h) && c.data != b.data
    ensures forall c :: c in Owned(h) && c != b ==> c.data != b.data && c in repr && c.data in repr
    ensures h.next != null ==> h.next in Owned(h)
    ensures h.current != null ==> h.current in Owned(h)
    ensures h.spare1 != null ==> h.spare1 in Owned(h)
    ensures h.spare2 != null ==> h.spare2 in Owned(h)
    ensures b == h.current ==> b != h.spare1 && b != h.spare2
    ensures b == h.spare1 ==> b != h.current && b != h.spare2
    ensures b == h.spare2 ==> b != h.current && b != h.spare1
  {
  }

  /** currentBuffer_->append(text) */
  method AppendText(b: FixedBuffer, text: string, ghost h: Hands, ghost repr: set<object>)
    requires Sound(h, repr) && b == h.current
    modifies b`cur, b`pieces, b.data
    ensures Sound(h, repr) && old(Contents(h, repr)).current.Owns?
    ensures Contents(h, repr) ==
            old(Contents(h, repr)).(current := Owns(AppendTo(old(Contents(h, repr)).current.buffer, text)))
  {
    hide SoleOwners, Owned, Views, Flatten;
    Alone(h, repr, b);
    ghost var v := View(b);
    assert v.buffer.data == b.data[..b.cur] == b.Contents() && Avail(v.buffer) == b.Avail();
    b.Append(text);
    assert View(b).buffer.data == b.Contents();
    assert View(b) == Owns(AppendTo(v.buffer, text));
    forall c | c in Owned(h) ensures c.Valid() {
      if c != b {
        assert c in repr && c.data in repr;
      }
    }
  }

  /** newBuffer->reset() */
  method Clear(b: FixedBuffer, ghost h: Hands, ghost repr: set<object>)
    requires Sound(h, repr) && (b == h.spare1 || b == h.spare2)
    modifies b`cur, b`pieces
    ensures Sound(h, repr)
    ensures b == h.spare1 ==> Contents(h, repr) == old(Contents(h, repr)).(spare1 := EMPTY)
    ensures b == h.spare2 ==> Contents(h, repr) == old(Contents(h, repr)).(spare2 := EMPTY)
  {
    hide SoleOwners, Owned, Views, Flatten;
    Alone(h, repr, b);
    b.Reset();
    forall c | c in Owned(h) ensures c.Valid() {
      if c != b {
        assert c in repr && c.data in repr;
      }
    }
  }
}
