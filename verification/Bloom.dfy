/** The Bloom filter built by clients: double hashing over a bit array. */
module Bloom {
  import opened Bytes
  import opened BloomBits

  /** The two 64-bit hashes of a key. */
  type HashPair = ByteString -> (nat, nat)

  function KeyProbe(hashes: HashPair, key: ByteString, i: nat, bits: nat): (position: nat)
    requires bits > 0
    ensures position < bits
  {
    Probe(hashes(key).0 % WORD, hashes(key).1 % WORD, i, bits)
  }

  class BloomFilter {
    const hashes: HashPair
    const numBits: nat
    const numHashes: nat
    const bits: array<Byte>

    ghost predicate Valid()
      reads this
    {
      numBits > 0 && numBits <= 8 * bits.Length
    }

    /** The positions whose bit is on. */
    ghost predicate IsSet(position: nat)
      requires Valid() && position < 8 * bits.Length
      reads this, bits
    {
      Bit(bits[position / 8], position % 8)
    }

    ghost predicate Contains(key: ByteString)
      requires Valid()
      reads this, bits
    {
      ContainsOver(key, numBits)
    }

    /** All probes of the key are on, when reduced to `size` positions. */
    ghost predicate ContainsOver(key: ByteString, size: nat)
      requires Valid() && 0 < size <= 8 * bits.Length
      reads this, bits
    {
      forall i: nat | i < numHashes :: IsSet(KeyProbe(hashes, key, i, size))
    }

    /** `new`, given the sizes its floating-point formulas choose. */
    constructor (h: HashPair, n: nat, k: nat)
      requires n > 0
      ensures Valid() && fresh(bits) && hashes == h && numBits == n && numHashes == k
      ensures bits.Length == (n + 7) / 8 && forall j | 0 <= j < bits.Length :: bits[j] == 0
    {
      hashes, numBits, numHashes := h, n, k;
      bits := new Byte[(n + 7) / 8](_ => 0);
    }

    /** `from_bytes`. */
    constructor FromBytes(h: HashPair, bytes: ByteString, k: nat)
      requires bytes != []
      ensures Valid() && fresh(bits) && hashes == h && numBits == 8 * |bytes| && numHashes == k
      ensures bits[..] == bytes
    {
      hashes, numBits, numHashes := h, 8 * |bytes|, k;
      bits := new Byte[|bytes|](i requires 0 <= i < |bytes| => bytes[i]);
    }

    /** Switches on one bit and no other. */
    method SetBit(position: nat)
      requires Valid() && position < 8 * bits.Length
      modifies bits
      ensures forall p: nat | p < 8 * bits.Length :: IsSet(p) <==> p == position || old(IsSet(p))
    {
      var b := bits[position / 8];
      bits[position / 8] := SetByteBit(b, position % 8);
      forall p: nat | p < 8 * bits.Length ensures IsSet(p) <==> p == position || old(IsSet(p)) {
        if p / 8 == position / 8 {
          EightBits();
          WithBitBits(b, position % 8, 8, p % 8);
        }
      }
    }

    /** `insert`: exactly the key's probe positions are switched on. */
    method Insert(key: ByteString)
      requires Valid()
      modifies bits
      ensures forall p: nat | p < 8 * bits.Length ::
        IsSet(p) <==> old(IsSet(p)) || exists i: nat :: i < numHashes && p == KeyProbe(hashes, key, i, numBits)
    {
      for n := 0 to numHashes
        invariant forall p: nat | p < 8 * bits.Length ::
          IsSet(p) <==> old(IsSet(p)) || exists i: nat :: i < n && p == KeyProbe(hashes, key, i, numBits)
      {
        SetBit(KeyProbe(hashes, key, n, numBits));
      }
    }

    /** `may_contain`. */
    method MayContain(key: ByteString) returns (r: bool)
      requires Valid()
      ensures r <==> Contains(key)
    {
      for n := 0 to numHashes
        invariant forall i: nat | i < n :: IsSet(KeyProbe(hashes, key, i, numBits))
      {
        var position := KeyProbe(hashes, key, n, numBits);
        if !Bit(bits[position / 8], position % 8) {
          assert !IsSet(KeyProbe(hashes, key, n, numBits));
          return false;
        }
      }
      r := true;
    }

    /** The bits that are on are the probes of the keys. */
    ghost predicate Holds(keys: seq<ByteString>)
      requires Valid()
      reads this, bits
    {
      forall p: nat | p < 8 * bits.Length :: IsSet(p) <==> Probed(hashes, keys, numBits, numHashes, p)
    }

    lemma ContainsIsProbed(keys: seq<ByteString>, key: ByteString, size: nat)
      requires Valid() && Holds(keys) && 0 < size <= 8 * bits.Length
      ensures ContainsOver(key, size) <==> AllProbed(hashes, keys, numBits, numHashes, key, size)
    {
      forall i: nat | i < numHashes
        ensures IsSet(KeyProbe(hashes, key, i, size))
           <==> Probed(hashes, keys, numBits, numHashes, KeyProbe(hashes, key, i, size))
      {
      }
    }

    lemma SetIsBitAt(position: nat)
      requires Valid() && position < 8 * bits.Length
      ensures IsSet(position) <==> BitAt(bits[..], position)
    {
    }

    /** `to_bytes`. */
    function ToBytes(): ByteString
      reads bits
    {
      bits[..]
    }
  }

  /** Position `p` is a probe of one of the keys. */
  ghost predicate Probed(hashes: HashPair, keys: seq<ByteString>, bits: nat, numHashes: nat, p: nat)
    requires bits > 0
  {
    exists m: nat, i: nat :: m < |keys| && i < numHashes && p == KeyProbe(hashes, keys[m], i, bits)
  }

  /** Every probe of `key`, reduced to `size` positions, is a probe of one of the keys. */
  ghost predicate AllProbed(hashes: HashPair, keys: seq<ByteString>, bits: nat, numHashes: nat, key: ByteString,
                            size: nat)
    requires bits > 0 && size > 0
  {
    forall i: nat | i < numHashes :: Probed(hashes, keys, bits, numHashes, KeyProbe(hashes, key, i, size))
  }

  lemma ProbedByOneMore(hashes: HashPair, keys: seq<ByteString>, n: nat, bits: nat, numHashes: nat, p: nat)
    requires bits > 0 && n < |keys|
    ensures Probed(hashes, keys[..n + 1], bits, numHashes, p)
       <==> || Probed(hashes, keys[..n], bits, numHashes, p)
            || exists i: nat :: i < numHashes && p == KeyProbe(hashes, keys[n], i, bits)
  {
    if Probed(hashes, keys[..n + 1], bits, numHashes, p) {
      var m: nat, i: nat :| m < n + 1 && i < numHashes && p == KeyProbe(hashes, keys[..n + 1][m], i, bits);
      if m < n { assert p == KeyProbe(hashes, keys[..n][m], i, bits); }
    }
    if m: nat, i: nat :| m < n && i < numHashes && p == KeyProbe(hashes, keys[..n][m], i, bits) {
      assert p == KeyProbe(hashes, keys[..n + 1][m], i, bits);
    }
    if i: nat :| i < numHashes && p == KeyProbe(hashes, keys[n], i, bits) {
      assert p == KeyProbe(hashes, keys[..n + 1][n], i, bits);
    }
  }

  /** After any inserts exactly the probes of the inserted keys have been switched on. */
  method InsertAll(filter: BloomFilter, keys: seq<ByteString>)
    requires filter.Valid()
    modifies filter.bits
    ensures forall p: nat | p < 8 * filter.bits.Length ::
      filter.IsSet(p) <==> old(filter.IsSet(p)) || Probed(filter.hashes, keys, filter.numBits, filter.numHashes, p)
  {
    for n := 0 to |keys|
      invariant forall p: nat | p < 8 * filter.bits.Length ::
        filter.IsSet(p) <==>
          old(filter.IsSet(p)) || Probed(filter.hashes, keys[..n], filter.numBits, filter.numHashes, p)
    {
      filter.Insert(keys[n]);
      forall p: nat { ProbedByOneMore(filter.hashes, keys, n, filter.numBits, filter.numHashes, p); }
    }
    assert keys[..|keys|] == keys;
  }

  /** The number of bits in the bytes of a filter. */
  function Rounded(numBits: nat): (size: nat)
    ensures numBits <= size < numBits + 8 && (size == numBits <==> numBits % 8 == 0)
  {
    8 * ((numBits + 7) / 8)
  }

  /** `new`, then `insert` of each key. */
  method Build(h: HashPair, numBits: nat, numHashes: nat, keys: seq<ByteString>) returns (filter: BloomFilter)
    requires numBits > 0
    ensures fresh(filter) && fresh(filter.bits) && filter.Valid() && filter.Holds(keys)
    ensures filter.hashes == h && filter.numBits == numBits && filter.numHashes == numHashes
    ensures 8 * filter.bits.Length == Rounded(numBits)
  {
    filter := new BloomFilter(h, numBits, numHashes);
    forall p: nat | p < 8 * filter.bits.Length ensures !filter.IsSet(p) { ZeroHasNoBits(p % 8); }
    InsertAll(filter, keys);
  }

  /**
   A filter built from `keys` and asked about `key`, directly and after a trip through its bytes. Each
   answers yes exactly when every probe of `key`, as it reduces it, is a probe of some inserted key. So
   every inserted key tests positive before the trip; after it, if the size is a multiple of 8 bits.
   */
  method BuildAndAsk(h: HashPair, numBits: nat, numHashes: nat, keys: seq<ByteString>, key: ByteString)
    returns (answer: bool, reread: bool)
    requires numBits > 0
    ensures answer <==> AllProbed(h, keys, numBits, numHashes, key, numBits)
    ensures reread <==> AllProbed(h, keys, numBits, numHashes, key, Rounded(numBits))
    ensures key in keys ==> answer
    ensures numBits % 8 == 0 ==> reread == answer
  {
    var filter := Build(h, numBits, numHashes, keys);
    filter.ContainsIsProbed(keys, key, numBits);
    filter.ContainsIsProbed(keys, key, Rounded(numBits));
    answer, reread := AskTwice(filter, key);
    if key in keys {
      InsertedIsProbed(h, keys, key, numBits, numHashes);
    }
  }

  /** The filter's own answer, and that of a copy made from its bytes. */
  method AskTwice(filter: BloomFilter, key: ByteString) returns (answer: bool, reread: bool)
    requires filter.Valid()
    ensures answer <==> filter.Contains(key)
    ensures reread <==> filter.ContainsOver(key, 8 * filter.bits.Length)
  {
    answer := filter.MayContain(key);
    var copy := Reread(filter);
    reread := copy.MayContain(key);
    forall p: nat | p < 8 * filter.bits.Length ensures copy.IsSet(p) <==> filter.IsSet(p) {
      filter.SetIsBitAt(p);
      copy.SetIsBitAt(p);
    }
  }

  /**
   For every size that is no multiple of 8 bits: with a hash function that sends the key to `numBits` and
   0, the key is inserted and found, and is not found after the trip through the bytes.
   */
  method RereadLosesKey(numBits: nat, numHashes: nat, key: ByteString) returns (answer: bool, reread: bool)
    requires 0 < numBits < WORD && numBits % 8 != 0 && numHashes > 0
    ensures answer && !reread
  {
    var h: HashPair := _ => (numBits, 0);
    answer, reread := BuildAndAsk(h, numBits, numHashes, [key], key);
    KeyOutside(h, numBits, numHashes, key);
  }

  lemma KeyOutside(h: HashPair, numBits: nat, numHashes: nat, key: ByteString)
    requires 0 < numBits < WORD && numBits % 8 != 0 && numHashes > 0 && h(key) == (numBits, 0)
    ensures !AllProbed(h, [key], numBits, numHashes, key, Rounded(numBits))
  {
    var outside := KeyProbe(h, key, 0, Rounded(numBits));
    ProbeWithoutStep(numBits, 0, Rounded(numBits));
    Remainders(numBits, Rounded(numBits));
    assert outside == numBits;
    assert !Probed(h, [key], numBits, numHashes, outside);
  }

  lemma InsertedIsProbed(h: HashPair, keys: seq<ByteString>, key: ByteString, bits: nat, numHashes: nat)
    requires bits > 0 && key in keys
    ensures AllProbed(h, keys, bits, numHashes, key, bits)
  {
    var m: nat :| m < |keys| && keys[m] == key;
    forall i: nat | i < numHashes ensures Probed(h, keys, bits, numHashes, KeyProbe(h, key, i, bits)) {
      assert KeyProbe(h, key, i, bits) == KeyProbe(h, keys[m], i, bits);
    }
  }

  /** Rebuilding a filter from its bytes. */
  method Reread(filter: BloomFilter) returns (copy: BloomFilter)
    requires filter.Valid()
    ensures fresh(copy) && copy.Valid() && copy.hashes == filter.hashes && copy.numHashes == filter.numHashes
    ensures copy.numBits == 8 * filter.bits.Length && copy.bits[..] == filter.bits[..]
  {
    copy := new BloomFilter.FromBytes(filter.hashes, filter.ToBytes(), filter.numHashes);
  }

  /**
   Bytes keep no bit count: every filter of `numBits` bits, built from any keys with any hash functions,
   answers every key as before when reread from its bytes, if and only if `numBits` is a multiple of 8.
   */
  lemma BytesRoundTrip(numBits: nat, numHashes: nat)
    requires 0 < numBits < WORD && numHashes > 0
    ensures numBits % 8 == 0
       <==> forall h: HashPair, keys: seq<ByteString>, key: ByteString ::
           AllProbed(h, keys, numBits, numHashes, key, numBits)
           <==> AllProbed(h, keys, numBits, numHashes, key, Rounded(numBits))
  {
    if numBits % 8 != 0 {
      var h: HashPair, key: ByteString := _ => (numBits, 0), [];
      InsertedIsProbed(h, [key], key, numBits, numHashes);
      KeyOutside(h, numBits, numHashes, key);
    }
  }

  lemma Remainders(n: nat, m: nat)
    requires 0 < n < m
    ensures n % n == 0 && n % m == n
  {
  }

  /** With a second hash of 0 all probes are the first one. */
  lemma ProbeWithoutStep(h: nat, i: nat, bits: nat)
    requires h < WORD && bits > 0
    ensures Probe(h % WORD, 0 % WORD, i, bits) == h % bits
  {
    assert i * 0 == 0;
  }
}
