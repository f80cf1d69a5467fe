/** Unsigned integers in network byte order, as `int.to_bytes(width, "big")` and `struct` write and read them. */
module Bytes {

  type Byte = n: nat | n < 256

  function Power256(width: nat): (r: nat)
    ensures r > 0
  {
    if width == 0 then 1 else 256 * Power256(width - 1)
  }

  function BigEndian(n: nat, width: nat): (r: seq<Byte>)
    ensures |r| == width
  {
    if width == 0 then [] else BigEndian(n / 256, width - 1) + [n % 256]
  }

  function Unsigned(bytes: seq<Byte>): nat {
    if bytes == [] then 0 else 256 * Unsigned(bytes[..|bytes| - 1]) + bytes[|bytes| - 1]
  }

  lemma Quotient(u: nat, b: nat)
    requires b < 256
    ensures (256 * u + b) / 256 == u && (256 * u + b) % 256 == b
  {
  }

  lemma {:induction false} UnsignedRoundTrip(n: nat, width: nat)
    requires n < Power256(width)
    ensures Unsigned(BigEndian(n, width)) == n
  {
    if width > 0 {
      UnsignedRoundTrip(n / 256, width - 1);
      assert BigEndian(n, width)[..width - 1] == BigEndian(n / 256, width - 1);
    }
  }

  lemma Grown(u: nat, b: nat, limit: nat)
    requires u < limit && b < 256
    ensures 256 * u + b < 256 * limit
  {
  }

  lemma BigEndianSnoc(u: nat, b: Byte, width: nat)
    ensures BigEndian(256 * u + b, width + 1) == BigEndian(u, width) + [b]
    ensures Power256(width + 1) == 256 * Power256(width)
  {
    Quotient(u, b);
  }

  lemma UnsignedSnoc(front: seq<Byte>, b: Byte)
    ensures Unsigned(front + [b]) == 256 * Unsigned(front) + b
  {
    assert (front + [b])[..|front|] == front;
  }

  lemma {:induction false} BigEndianRoundTrip(bytes: seq<Byte>)
    ensures Unsigned(bytes) < Power256(|bytes|) && BigEndian(Unsigned(bytes), |bytes|) == bytes
    decreases |bytes|
  {
    if bytes != [] {
      var front, last := bytes[..|bytes| - 1], bytes[|bytes| - 1];
      BigEndianRoundTrip(front);
      assert bytes == front + [last];
      hide BigEndian, Unsigned, Power256;
      UnsignedSnoc(front, last);
      BigEndianSnoc(Unsigned(front), last, |front|);
      Grown(Unsigned(front), last, Power256(|front|));
    }
  }

  lemma NoMultiple(x: int, d: nat)
    requires 0 - d < x * d < d
    ensures x == 0
  {
  }

  lemma DivisionIs(a: nat, d: nat, q: nat, r: nat)
    requires a == q * d + r && r < d
    ensures a / d == q
  {
    assert a == a / d * d + a % d;
    assert (a / d - q) * d == r - a % d;
    NoMultiple(a / d - q, d);
  }

  /** Dividing by a base and then by a power of it. */
  lemma DividedTwice(a: nat, base: nat, d: nat)
    requires base > 0 && d > 0
    ensures base * d > 0 && a / base / d == a / (base * d)
  {
    var q, r := a / base / d, a / base % d;
    assert a / base == q * d + r;
    var rest := r * base + a % base;
    assert a == a / base * base + a % base;
    assert a == q * (base * d) + rest;
    assert rest < (r + 1) * base <= d * base;
    DivisionIs(a, base * d, q, rest);
  }

  /** The most significant byte comes first. */
  lemma {:induction false} BigEndianByte(n: nat, width: nat, i: nat)
    requires i < width
    ensures BigEndian(n, width)[i] == n / Power256(width - 1 - i) % 256
  {
    if i < width - 1 {
      BigEndianByte(n / 256, width - 1, i);
      DividedTwice(n, 256, Power256(width - 2 - i));
    }
  }

  lemma Append(a: seq<Byte>, b: seq<Byte>, c: seq<Byte>)
    ensures a + b + c == a + (b + c)
  {
  }

  // ----- Bits, written with arithmetic -----

  function Power2(bits: nat): (r: nat)
    ensures r > 0
  {
    if bits == 0 then 1 else 2 * Power2(bits - 1)
  }

  /** Exclusive or of numbers of so many bits. */
  function XorBits(a: nat, b: nat, bits: nat): (r: nat)
    requires a < Power2(bits) && b < Power2(bits)
    ensures r < Power2(bits)
  {
    if bits == 0 then 0 else 2 * XorBits(a / 2, b / 2, bits - 1) + (a + b) % 2
  }

  lemma HalfAndRest(half: nat, rest: nat)
    requires rest < 2
    ensures (2 * half + rest) / 2 == half && (2 * half + rest) % 2 == rest
  {
  }

  lemma RestsTwice(a: nat, b: nat, r: nat)
    requires r % 2 == (a + b) % 2
    ensures (r + b) % 2 == a % 2
  {
  }

  lemma SameHalves(a: nat, b: nat)
    requires a / 2 == b / 2 && a % 2 == b % 2
    ensures a == b
  {
  }

  lemma XorBitsOnce(a: nat, b: nat, bits: nat)
    requires bits > 0 && a < Power2(bits) && b < Power2(bits)
    ensures a / 2 < Power2(bits - 1) && b / 2 < Power2(bits - 1)
    ensures XorBits(a, b, bits) / 2 == XorBits(a / 2, b / 2, bits - 1) && XorBits(a, b, bits) % 2 == (a + b) % 2
  {
    HalfAndRest(XorBits(a / 2, b / 2, bits - 1), (a + b) % 2);
  }

  lemma {:induction false} XorBitsTwice(a: nat, b: nat, bits: nat)
    requires a < Power2(bits) && b < Power2(bits)
    ensures XorBits(XorBits(a, b, bits), b, bits) == a
  {
    if bits > 0 {
      var r := XorBits(a, b, bits);
      hide XorBits, Power2;
      XorBitsOnce(a, b, bits);
      XorBitsOnce(r, b, bits);
      XorBitsTwice(a / 2, b / 2, bits - 1);
      RestsTwice(a, b, r);
      SameHalves(XorBits(r, b, bits), a);
    }
  }

  /** Each bit is the sum modulo 2 of the bits at its place. */
  lemma {:induction false} XorBitsAdds(a: nat, b: nat, bits: nat, k: nat)
    requires a < Power2(bits) && b < Power2(bits) && k < bits
    ensures XorBits(a, b, bits) / Power2(k) % 2 == (a / Power2(k) + b / Power2(k)) % 2
  {
    var high, low := XorBits(a / 2, b / 2, bits - 1), (a + b) % 2;
    assert (2 * high + low) / 2 == high;
    if k > 0 {
      XorBitsAdds(a / 2, b / 2, bits - 1, k - 1);
      DividedTwice(a, 2, Power2(k - 1));
      DividedTwice(b, 2, Power2(k - 1));
      DividedTwice(2 * high + low, 2, Power2(k - 1));
    }
  }

  lemma EightBits()
    ensures Power2(8) == 256
  {
    assert Power2(4) == 2 * (2 * (2 * (2 * Power2(0))));
    assert Power2(8) == 2 * (2 * (2 * (2 * Power2(4))));
  }

  /** `a ^ b` */
  function Xor(a: Byte, b: Byte): Byte {
    EightBits();
    XorBits(a, b, 8)
  }

  /** Flipping the same bits twice gives the byte back. */
  lemma XorTwice(a: Byte, b: Byte)
    ensures Xor(Xor(a, b), b) == a
  {
    EightBits();
    XorBitsTwice(a, b, 8);
  }

  lemma XorAdds(a: Byte, b: Byte, k: nat)
    requires k < 8
    ensures Xor(a, b) / Power2(k) % 2 == (a / Power2(k) + b / Power2(k)) % 2
  {
    EightBits();
    XorBitsAdds(a, b, 8, k);
  }
}
