// Fixed-width integers in network byte order (mengSen/net/Endian.h), as appended to
// and read from a buffer.
module BigEndian {
  import opened Machine

  function Power256(n: nat): (p: nat)
    ensures p > 0
  {
    if n == 0 then 1 else 256 * Power256(n - 1)
  }

  /** The n low-order bytes of x in two's complement, most significant first. */
  function Encode(x: int, n: nat): (bytes: seq<byte>)
    ensures |bytes| == n
    decreases n
  {
    if n == 0 then [] else Encode(x / 256, n - 1) + [(x % 256) as byte]
  }

  function Unsigned(bytes: seq<byte>): (v: nat)
    decreases |bytes|
  {
    if bytes == [] then 0 else 256 * Unsigned(bytes[..|bytes| - 1]) + bytes[|bytes| - 1] as int
  }

  /** The value of an n-byte two's complement integer. */
  function Signed(bytes: seq<byte>): int {
    var u := Unsigned(bytes);
    if 2 * u >= Power256(|bytes|) then u - Power256(|bytes|) else u
  }

  predicate FitsSigned(x: int, n: nat) {
    0 - Power256(n) <= 2 * x < Power256(n)
  }

  lemma SplitLow(x: int, p: nat)
    requires p > 0
    ensures x % (256 * p) == 256 * ((x / 256) % p) + x % 256
  {
    var q, r := x / 256, x % 256;
    var s, t := q / p, q % p;
    assert x == 256 * q + r && q == s * p + t;
    assert 256 * (s * p) == s * (256 * p);
    assert x == s * (256 * p) + (256 * t + r);
    RemainderUnique(x, 256 * p, s, 256 * t + r);
  }

  lemma RemainderUnique(x: int, d: nat, q: int, r: nat)
    requires d > 0 && x == q * d + r && r < d
    ensures x % d == r
  {
    var q', r' := x / d, x % d;
    assert x == q' * d + r';
    assert (q - q') * d == r' - r;
    if q > q' {
      AtLeast(q - q', d);
    } else if q < q' {
      assert (q' - q) * d == r - r';
      AtLeast(q' - q, d);
    }
  }

  lemma {:induction false} UnsignedOfEncode(x: int, n: nat)
    ensures Unsigned(Encode(x, n)) == x % Power256(n)
    decreases n
  {
    if n > 0 {
      UnsignedOfEncode(x / 256, n - 1);
      SplitLow(x, Power256(n - 1));
      assert Encode(x, n)[..n - 1] == Encode(x / 256, n - 1);
    }
  }

  lemma {:induction false} UnsignedBound(bytes: seq<byte>)
    ensures Unsigned(bytes) < Power256(|bytes|)
    decreases |bytes|
  {
    if bytes != [] {
      UnsignedBound(bytes[..|bytes| - 1]);
    }
  }

  lemma {:induction false} PowerEven(n: nat)
    requires n > 0
    ensures Power256(n) % 2 == 0
    decreases n
  {
    assert Power256(n) == 2 * (128 * Power256(n - 1));
  }

  /** An integer written in n bytes is read back as it was exactly when it fits n bytes. */
  lemma SignedRoundTrip(x: int, n: nat)
    requires n > 0
    ensures Signed(Encode(x, n)) == x <==> FitsSigned(x, n)
    ensures FitsSigned(Signed(Encode(x, n)), n)
  {
    hide Encode, Unsigned, Power256;
    var p := Power256(n);
    UnsignedOfEncode(x, n);
    PowerEven(n);
    if FitsSigned(x, n) {
      if x >= 0 {
        RemainderUnique(x, p, 0, x);
      } else {
        RemainderUnique(x, p, -1, x + p);
      }
    }
  }

  /** Reading bytes as an integer and writing it again gives the bytes back. */
  lemma {:induction false} EncodeUnsigned(bytes: seq<byte>)
    ensures Encode(Unsigned(bytes), |bytes|) == bytes
    decreases |bytes|
  {
    if bytes != [] {
      var n := |bytes| - 1;
      EncodeUnsigned(bytes[..n]);
      LowByte(Unsigned(bytes[..n]), bytes[n] as int);
      assert bytes == bytes[..n] + [bytes[n]];
    }
  }

  lemma LowByte(u: nat, b: int)
    requires 0 <= b < 256
    ensures (256 * u + b) / 256 == u && (256 * u + b) % 256 == b
  {
  }

  /** Encoding only looks at x modulo 256^n. */
  lemma {:induction false} EncodePeriodic(x: int, n: nat, k: int)
    ensures Encode(x + k * Power256(n), n) == Encode(x, n)
    decreases n
  {
    if n > 0 {
      var p := Power256(n - 1);
      assert k * Power256(n) == 256 * (k * p);
      EncodePeriodic(x / 256, n - 1, k);
    }
  }

  lemma {:induction false} EncodeSigned(bytes: seq<byte>)
    ensures Encode(Signed(bytes), |bytes|) == bytes
  {
    hide Encode, Unsigned, Power256;
    EncodeUnsigned(bytes);
    EncodePeriodic(Unsigned(bytes), |bytes|, -1);
  }
}
