/** Index scans over raw pairs, with a key prefix, an optional Bloom filter and an optional limit. */
module IndexScan {
  import opened Wrappers
  import opened Bytes
  import opened Sequences
  import opened BloomBits
  import opened TermCodec
  import opened KeyTerms

  datatype Params = Params(table: Byte, keyPrefix: ByteString, limit: nat, bloom: Option<ByteString>,
                           bloomPositions: seq<nat>)

  datatype ScanResult = ScanResult(pairs: seq<Pair>, scannedKeys: nat)

  /** The 64-bit hash of a byte string. */
  type Hash = ByteString -> nat

  /** A key of the table whose part after the table byte starts with the prefix. */
  predicate InTable(table: Byte, keyPrefix: ByteString, key: ByteString) {
    key != [] && key[0] == table && keyPrefix <= key[1..]
  }

  lemma StartsWithBoth(table: Byte, keyPrefix: ByteString, key: ByteString)
    ensures [table] + keyPrefix <= key <==> InTable(table, keyPrefix, key)
  {
    if InTable(table, keyPrefix, key) {
      assert key == [table] + key[1..];
    }
    if [table] + keyPrefix <= key {
      var rest := key[|keyPrefix| + 1..];
      assert key == [table] + keyPrefix + rest;
      assert key[1..] == keyPrefix + rest;
    }
  }

  // --- Bloom pruning ------------------------------------------------------------------------------------

  /** The three probes of a scan use one hash: its low word and its upper half. */
  function ScanProbe(h: nat, i: nat, bits: nat): (position: nat)
    requires bits > 0
    ensures position < bits
  {
    Probe(h % WORD, h % WORD / 0x1_0000_0000, i, bits)
  }

  /** In one word: the hash, plus the probe's number times its upper half. */
  lemma ScanProbePosition(h: nat, i: nat, bits: nat)
    requires bits > 0
    ensures var word := h % WORD; ScanProbe(h, i, bits) == (word + i * (word / 0x1_0000_0000)) % WORD % bits
  {
    ProbeIsDoubleHash(h % WORD, h % WORD / 0x1_0000_0000, i, bits);
  }

  predicate ProbeSet(filter: ByteString, h: nat, i: nat)
    requires filter != []
  {
    BitAt(filter, ScanProbe(h, i, 8 * |filter|))
  }

  predicate MayContain(hash: Hash, filter: ByteString, key: ByteString) {
    filter != [] ==> forall i: nat | i < 3 :: ProbeSet(filter, hash(key), i)
  }

  method TestProbe(filter: ByteString, h: nat, i: nat) returns (isSet: bool)
    requires filter != []
    ensures isSet <==> ProbeSet(filter, h, i)
  {
    var position := ScanProbe(h, i, 8 * |filter|);
    isSet := Bit(filter[position / 8], position % 8);
  }

  /** `bloom_check`. */
  method BloomCheck(hash: Hash, filter: ByteString, key: ByteString) returns (r: bool)
    ensures r <==> MayContain(hash, filter, key)
    ensures filter != [] ==>
              (r <==> && ProbeSet(filter, hash(key), 0) && ProbeSet(filter, hash(key), 1)
                      && ProbeSet(filter, hash(key), 2))
  {
    if filter == [] {
      return true;
    }
    var h := hash(key);
    for i := 0 to 3
      invariant forall j: nat | j < i :: ProbeSet(filter, h, j)
    {
      var isSet := TestProbe(filter, h, i);
      if !isSet {
        return false;
      }
    }
    r := true;
  }

  /**
   Whether a pair whose key has the prefix is dropped: only a key whose chosen terms can be taken out
   and are not in the filter.
   */
  function Pruned(hash: Hash, params: Params, key: ByteString): Outcome<bool>
    requires key != []
  {
    if params.bloom.None? then Done(false)
    else
      match ConcatTerms(key[1..], params.bloomPositions)
      case Done(terms) => Done(!MayContain(hash, params.bloom.value, terms))
      case Failed(_) => Done(false)
      case Panics => Panics
  }

  // --- the scan -----------------------------------------------------------------------------------------

  function Scan(hash: Hash, params: Params, pairs: seq<Pair>, soFar: ScanResult): Outcome<ScanResult> {
    if pairs == [] then Done(soFar)
    else if !(InTable(params.table, params.keyPrefix, pairs[0].0)) then Scan(hash, params, pairs[1..], soFar)
    else
      var counted := soFar.(scannedKeys := soFar.scannedKeys + 1);
      match Pruned(hash, params, pairs[0].0)
      case Panics => Panics
      case Failed(e) => Failed(e)
      case Done(true) => Scan(hash, params, pairs[1..], counted)
      case Done(false) =>
        var kept := counted.(pairs := soFar.pairs + [pairs[0]]);
        if params.limit > 0 && |kept.pairs| >= params.limit then Done(kept)
        else Scan(hash, params, pairs[1..], kept)
  }

  /** `execute_index_scan`. */
  method ExecuteIndexScan(hash: Hash, params: Params, pairs: seq<Pair>) returns (r: Outcome<ScanResult>)
    ensures r == Scan(hash, params, pairs, ScanResult([], 0))
  {
    var kept: seq<Pair>, scannedKeys := [], 0;
    var fullPrefix := [params.table] + params.keyPrefix;
    var i := 0;
    assert pairs[0..] == pairs;
    while i < |pairs|
      invariant 0 <= i <= |pairs|
      invariant Scan(hash, params, pairs, ScanResult([], 0))
           == Scan(hash, params, pairs[i..], ScanResult(kept, scannedKeys))
    {
      var (key, value) := pairs[i];
      assert pairs[i..][0] == pairs[i] && pairs[i..][1..] == pairs[i + 1..];
      i := i + 1;
      StartsWithBoth(params.table, params.keyPrefix, key);
      if !(fullPrefix <= key) {
        continue;
      }
      scannedKeys := scannedKeys + 1;
      if params.bloom.Some? {
        var terms := ExtractConcatTermBytes(key[1..], params.bloomPositions);
        if terms.Panics? {
          return Panics;
        }
        if terms.Done? {
          var maybe := BloomCheck(hash, params.bloom.value, terms.value);
          if !maybe {
            continue;
          }
        }
      }
      kept := kept + [(key, value)];
      if params.limit > 0 && |kept| >= params.limit {
        return Done(ScanResult(kept, scannedKeys));
      }
    }
    r := Done(ScanResult(kept, scannedKeys));
  }

  // --- what a scan returns --------------------------------------------------------------------------------

  /** The pairs whose key starts with `prefix`, in order. */
  function Rows(table: Byte, keyPrefix: ByteString, pairs: seq<Pair>): seq<Pair> {
    if pairs == [] then []
    else (if InTable(table, keyPrefix, pairs[0].0) then [pairs[0]] else []) + Rows(table, keyPrefix, pairs[1..])
  }

  /** An unlimited scan in which all keys with the prefix fare alike: all of them are kept, or none. */
  lemma {:induction false} UniformScan(hash: Hash, params: Params, pairs: seq<Pair>, soFar: ScanResult, drop: bool)
    requires params.limit == 0
    requires forall i | 0 <= i < |pairs| && InTable(params.table, params.keyPrefix, pairs[i].0) ::
      Pruned(hash, params, pairs[i].0) == Done(drop)
    ensures Scan(hash, params, pairs, soFar)
         == Done(Extended(soFar, Rows(params.table, params.keyPrefix, pairs), drop))
    decreases |pairs|
  {
    if pairs == [] {
      assert soFar.pairs + [] == soFar.pairs;
    } else {
      var others := Rows(params.table, params.keyPrefix, pairs[1..]);
      assert forall i | 0 <= i < |pairs[1..]| :: pairs[1..][i] == pairs[i + 1];
      if InTable(params.table, params.keyPrefix, pairs[0].0) {
        var next := Extended(soFar, [pairs[0]], drop);
        UniformScan(hash, params, pairs[1..], next, drop);
        Associate(soFar.pairs, [pairs[0]], others);
        assert soFar.pairs + [] == soFar.pairs;
      } else {
        UniformScan(hash, params, pairs[1..], soFar, drop);
        assert Rows(params.table, params.keyPrefix, pairs) == others;
      }
    }
  }

  function Extended(r: ScanResult, found: seq<Pair>, drop: bool): ScanResult {
    ScanResult(r.pairs + if drop then [] else found, r.scannedKeys + |found|)
  }

  /** Without a filter or a limit a scan is the prefix filter. */
  lemma {:induction false} PlainScan(hash: Hash, params: Params, pairs: seq<Pair>)
    requires params.bloom.None? && params.limit == 0
    ensures Scan(hash, params, pairs, ScanResult([], 0))
         == Done(Extended(ScanResult([], 0), Rows(params.table, params.keyPrefix, pairs), false))
  {
    UniformScan(hash, params, pairs, ScanResult([], 0), false);
  }

  /**
   With no filter positions every row has the same, empty, filter key: the filter keeps all rows with
   the prefix or none of them.
   */
  lemma {:induction false} PositionlessScan(hash: Hash, params: Params, pairs: seq<Pair>)
    requires params.bloom.Some? && params.bloomPositions == [] && params.limit == 0
    ensures Scan(hash, params, pairs, ScanResult([], 0))
         == Done(Extended(ScanResult([], 0), Rows(params.table, params.keyPrefix, pairs),
                          !MayContain(hash, params.bloom.value, [])))
  {
    UniformScan(hash, params, pairs, ScanResult([], 0), !MayContain(hash, params.bloom.value, []));
  }

  /** The filter rules the key out: its chosen terms can be taken out, and one of their probe bits is off. */
  predicate RuledOut(hash: Hash, params: Params, key: ByteString)
    requires key != []
  {
    params.bloom.Some? &&
    match ConcatTerms(key[1..], params.bloomPositions)
    case Done(terms) => !MayContain(hash, params.bloom.value, terms)
    case _ => false
  }

  /** The pair, if it is in the table with the prefix and the filter does not rule it out. */
  function Kept(hash: Hash, params: Params, p: Pair): seq<Pair> {
    if InTable(params.table, params.keyPrefix, p.0) && !RuledOut(hash, params, p.0) then [p] else []
  }

  /** The pairs with the prefix that the filter does not drop, in order. */
  function Unpruned(hash: Hash, params: Params, pairs: seq<Pair>): seq<Pair> {
    if pairs == [] then [] else Kept(hash, params, pairs[0]) + Unpruned(hash, params, pairs[1..])
  }

  /** A key that is scanned and makes term extraction run off the end. */
  predicate RunsOff(params: Params, key: ByteString) {
    && InTable(params.table, params.keyPrefix, key)
    && params.bloom.Some? && ConcatTerms(key[1..], params.bloomPositions).Panics?
  }

  /** With `count` rows kept before these pairs, the limit is reached before any key that runs off the end. */
  predicate LimitReachedFirst(hash: Hash, params: Params, pairs: seq<Pair>, count: nat) {
    forall i | 0 <= i < |pairs| && RunsOff(params, pairs[i].0) ::
      params.limit > 0 && count + |Unpruned(hash, params, pairs[..i])| >= params.limit
  }

  lemma LimitReachedLater(hash: Hash, params: Params, pairs: seq<Pair>, count: nat)
    requires pairs != [] && !RunsOff(params, pairs[0].0)
    ensures LimitReachedFirst(hash, params, pairs, count)
       <==> LimitReachedFirst(hash, params, pairs[1..], count + |Kept(hash, params, pairs[0])|)
  {
    var rest := pairs[1..];
    forall i | 0 < i < |pairs|
      ensures pairs[i] == rest[i - 1]
      ensures |Unpruned(hash, params, pairs[..i])|
           == |Kept(hash, params, pairs[0])| + |Unpruned(hash, params, rest[..i - 1])|
    {
      assert pairs[..i][1..] == rest[..i - 1];
    }
    if LimitReachedFirst(hash, params, pairs, count) {
      forall i | 0 <= i < |rest| && RunsOff(params, rest[i].0)
        ensures params.limit > 0
        ensures count + |Kept(hash, params, pairs[0])| + |Unpruned(hash, params, rest[..i])| >= params.limit
      {
        assert rest[i] == pairs[i + 1];
      }
    }
  }

  function Limited(limit: nat, pairs: seq<Pair>): seq<Pair> {
    if limit > 0 && |pairs| > limit then pairs[..limit] else pairs
  }

  /** What the rest of a scan comes to: the rows up to the limit, or a panic. */
  predicate Scanned(hash: Hash, params: Params, pairs: seq<Pair>, soFar: seq<Pair>, r: Outcome<ScanResult>) {
    if LimitReachedFirst(hash, params, pairs, |soFar|)
    then r.Done? && r.value.pairs == Limited(params.limit, soFar + Unpruned(hash, params, pairs))
    else r.Panics?
  }

  lemma ScannedOneMore(hash: Hash, params: Params, pairs: seq<Pair>, soFar: seq<Pair>, r: Outcome<ScanResult>)
    requires pairs != [] && !RunsOff(params, pairs[0].0)
    requires Scanned(hash, params, pairs[1..], soFar + Kept(hash, params, pairs[0]), r)
    ensures Scanned(hash, params, pairs, soFar, r)
  {
    LimitReachedLater(hash, params, pairs, |soFar|);
    Associate(soFar, Kept(hash, params, pairs[0]), Unpruned(hash, params, pairs[1..]));
  }

  lemma LimitReachedNow(hash: Hash, params: Params, pairs: seq<Pair>, r: ScanResult)
    requires params.limit > 0 && |r.pairs| == params.limit
    ensures Scanned(hash, params, pairs, r.pairs, Done(r))
  {
    var others := Unpruned(hash, params, pairs);
    assert (r.pairs + others)[..params.limit] == r.pairs;
    assert others == [] ==> r.pairs + others == r.pairs;
  }

  /**
   A scan succeeds if and only if it reaches its limit before any key that runs off the end. With a limit
   `k > 0` it then returns the first `k` rows of the unlimited one.
   */
  lemma {:induction false} LimitedScan(hash: Hash, params: Params, pairs: seq<Pair>, soFar: ScanResult)
    requires params.limit > 0 ==> |soFar.pairs| < params.limit
    ensures Scanned(hash, params, pairs, soFar.pairs, Scan(hash, params, pairs, soFar))
    decreases |pairs|
  {
    if pairs == [] {
      assert soFar.pairs + [] == soFar.pairs;
    } else if RunsOff(params, pairs[0].0) {
      assert Unpruned(hash, params, pairs[..0]) == [];
    } else {
      var next := soFar.(pairs := soFar.pairs + Kept(hash, params, pairs[0]));
      if InTable(params.table, params.keyPrefix, pairs[0].0) {
        next := next.(scannedKeys := soFar.scannedKeys + 1);
      }
      assert soFar.pairs + [] == soFar.pairs;
      if params.limit > 0 && |next.pairs| >= params.limit {
        LimitReachedNow(hash, params, pairs[1..], next);
      } else {
        LimitedScan(hash, params, pairs[1..], next);
      }
      ScannedOneMore(hash, params, pairs, soFar.pairs, Scan(hash, params, pairs, soFar));
    }
  }

  lemma {:induction false} NotPruned(hash: Hash, params: Params, pairs: seq<Pair>, i: nat)
    requires i < |pairs| && InTable(params.table, params.keyPrefix, pairs[i].0)
    requires !RuledOut(hash, params, pairs[i].0)
    ensures pairs[i] in Unpruned(hash, params, pairs)
    decreases i
  {
    if i > 0 {
      NotPruned(hash, params, pairs[1..], i - 1);
    }
  }

  /**
   Pruning drops no row whose joined terms have all three probe bits set: an unlimited scan returns it,
   and a limited one does or returns `limit` others.
   */
  lemma {:induction false} NoFalseNegatives(hash: Hash, params: Params, pairs: seq<Pair>, i: nat)
    requires LimitReachedFirst(hash, params, pairs, 0)
    requires i < |pairs| && InTable(params.table, params.keyPrefix, pairs[i].0) && params.bloom.Some?
    requires ConcatTerms(pairs[i].0[1..], params.bloomPositions).Done?
    requires MayContain(hash, params.bloom.value, ConcatTerms(pairs[i].0[1..], params.bloomPositions).value)
    ensures Scan(hash, params, pairs, ScanResult([], 0)).Done?
    ensures var rows := Scan(hash, params, pairs, ScanResult([], 0)).value.pairs;
            pairs[i] in rows || (params.limit > 0 && |rows| == params.limit)
  {
    LimitedScan(hash, params, pairs, ScanResult([], 0));
    NotPruned(hash, params, pairs, i);
    assert [] + Unpruned(hash, params, pairs) == Unpruned(hash, params, pairs);
  }
}
