/** Bit positions in a byte string, and the probe positions of a double-hashed Bloom filter. */
module BloomBits {
  import opened Bytes

  const WORD := 0x1_0000_0000_0000_0000

  /** Bit `k` of `b`: `b & (1 << k) != 0`. */
  predicate Bit(b: nat, k: nat) {
    if k == 0 then b % 2 == 1 else Bit(b / 2, k - 1)
  }

  /** `b | (1 << k)`, for a bit inside a word of `width` bits. */
  function WithBit(b: nat, k: nat, ghost width: nat): (r: nat)
    requires k < width && b < Power2(width)
    ensures b <= r < Power2(width)
  {
    if k == 0 then (if b % 2 == 1 then b else b + 1)
    else
      assert Power2(width) == 2 * Power2(width - 1);
      2 * WithBit(b / 2, k - 1, width - 1) + b % 2
  }

  ghost function Power2(n: nat): nat {
    if n == 0 then 1 else 2 * Power2(n - 1)
  }

  lemma EightBits()
    ensures Power2(8) == 256
  {
    assert Power2(4) == 16;
  }

  /** Exactly one bit is switched on. */
  lemma {:induction false} WithBitBits(b: nat, k: nat, width: nat, j: nat)
    requires k < width && b < Power2(width)
    ensures Bit(WithBit(b, k, width), j) <==> j == k || Bit(b, j)
    decreases k
  {
    if k > 0 {
      assert WithBit(b, k, width) / 2 == WithBit(b / 2, k - 1, width - 1);
      assert WithBit(b, k, width) % 2 == b % 2;
      if j > 0 {
        WithBitBits(b / 2, k - 1, width - 1, j - 1);
      }
    }
  }

  function SetByteBit(b: Byte, k: nat): Byte
    requires k < 8
  {
    EightBits();
    WithBit(b, k, 8)
  }

  predicate BitAt(bytes: ByteString, position: nat)
    requires position < 8 * |bytes|
  {
    Bit(bytes[position / 8], position % 8)
  }

  /** The bytes as one number, the first byte least significant. */
  function Number(bytes: ByteString): nat { if bytes == [] then 0 else bytes[0] + 256 * Number(bytes[1..]) }

  lemma {:induction false} BitOfSum(b: nat, n: nat, width: nat, k: nat)
    requires b < Power2(width)
    ensures Bit(b + Power2(width) * n, k) <==> if k < width then Bit(b, k) else Bit(n, k - width)
    decreases width
  {
    if width > 0 {
      var half := Power2(width - 1);
      assert Power2(width) * n == 2 * (half * n);
      assert (b + 2 * (half * n)) / 2 == b / 2 + half * n && (b + 2 * (half * n)) % 2 == b % 2;
      if k > 0 { BitOfSum(b / 2, n, width - 1, k - 1); }
    }
  }

  /** Positions number the bits of the bytes as those of one number. */
  lemma {:induction false} BitsOfNumber(bytes: ByteString, position: nat)
    requires position < 8 * |bytes|
    ensures BitAt(bytes, position) <==> Bit(Number(bytes), position)
    decreases |bytes|
  {
    EightBits();
    BitOfSum(bytes[0], Number(bytes[1..]), 8, position);
    if position >= 8 {
      BitsOfNumber(bytes[1..], position - 8);
    }
  }

  /** The i-th probe: 64-bit wrapping arithmetic, then reduced to the number of bits. */
  function Probe(h1: nat, h2: nat, i: nat, bits: nat): (position: nat)
    requires bits > 0
    ensures position < bits
  {
    (h1 + i * h2 % WORD) % WORD % bits
  }

  /** Double hashing: wrapping at every step or once at the end comes to the same. */
  lemma ProbeIsDoubleHash(h1: nat, h2: nat, i: nat, bits: nat)
    requires bits > 0
    ensures Probe(h1, h2, i, bits) == (h1 + i * h2) % WORD % bits
  {
    WrapOnce(h1, i * h2);
  }

  lemma WrapOnce(a: nat, x: nat)
    ensures (a + x % WORD) % WORD == (a + x) % WORD
  {
    assert x == WORD * (x / WORD) + x % WORD;
    assert (a + x) / WORD == (a + x % WORD) / WORD + x / WORD;
  }

  lemma {:induction false} ZeroHasNoBits(k: nat)
    ensures !Bit(0, k)
  {
    if k > 0 { ZeroHasNoBits(k - 1); }
  }
}
