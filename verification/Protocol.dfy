/** The coprocessor's binary requests and responses. */
module Protocol {
  import opened Wrappers
  import opened Bytes
  import opened Sequences

  datatype OpType = IndexScan | FilterScan | CountScan | MinMaxScan

  datatype Request = Request(op: OpType, table: Byte, keyPrefix: ByteString, bloom: Option<ByteString>)

  function OpByte(op: OpType): Byte {
    match op
    case IndexScan => 0
    case FilterScan => 1
    case CountScan => 2
    case MinMaxScan => 3
  }

  function OpFromByte(b: Byte): Option<OpType> {
    if b == 0 then Some(IndexScan)
    else if b == 1 then Some(FilterScan)
    else if b == 2 then Some(CountScan)
    else if b == 3 then Some(MinMaxScan)
    else None
  }

  /** The codes of the operations, in the order of the documented table. */
  const OPERATIONS := [IndexScan, FilterScan, CountScan, MinMaxScan]

  lemma OperationCodes(op: OpType, b: Byte)
    ensures OpByte(op) < 4 && OPERATIONS[OpByte(op)] == op
    ensures OpFromByte(b) == if b < 4 then Some(OPERATIONS[b]) else None
  {
  }

  // --- requests ------------------------------------------------------------------------------------------

  function BloomBytes(bloom: Option<ByteString>): ByteString {
    if bloom.Some? then bloom.value else []
  }

  /** The wire form of a request; the prefix length is cut to 16 bits. */
  function RequestBytes(req: Request): ByteString {
    [OpByte(req.op), req.table] + ToBe(|req.keyPrefix|, 2) + req.keyPrefix + BloomBytes(req.bloom)
  }

  /** `encode_request`. */
  method EncodeRequest(req: Request) returns (buf: ByteString)
    ensures buf == RequestBytes(req)
  {
    buf := [OpByte(req.op)];
    buf := buf + [req.table];
    buf := buf + ToBe(|req.keyPrefix|, 2);
    buf := buf + req.keyPrefix;
    if req.bloom.Some? {
      buf := buf + req.bloom.value;
    }
  }

  /** `decode_request`. */
  function DecodeRequest(data: ByteString): Result<Request, string> {
    if |data| < 4 then Err("request too short: need at least 4 bytes")
    else
      var op := OpFromByte(data[0]);
      if op.None? then Err("unknown op type")
      else
        var len, rest := FromBe(data[2..4]), data[4..];
        if |rest| < len then Err("request truncated")
        else Ok(Request(op.value, data[1], rest[..len], if |rest| > len then Some(rest[len..]) else None))
  }

  lemma RequestLayout(req: Request)
    ensures var data := RequestBytes(req);
            && |data| >= 4 && data[0] == OpByte(req.op) && data[1] == req.table
            && data[2..4] == ToBe(|req.keyPrefix|, 2) && data[4..] == req.keyPrefix + BloomBytes(req.bloom)
  {
  }

  /** A request survives the wire exactly when its prefix length fits and its filter is not an empty one. */
  lemma RequestRoundTrip(req: Request)
    ensures DecodeRequest(RequestBytes(req)) == Ok(req) <==> |req.keyPrefix| < 0x1_0000 && req.bloom != Some([])
  {
    Widths();
    RequestLayout(req);
    FromToBe(|req.keyPrefix|, 2);
    var rest := req.keyPrefix + BloomBytes(req.bloom);
    TakeDrop(req.keyPrefix, BloomBytes(req.bloom));
    if |req.keyPrefix| >= 0x1_0000 {
      var len := |req.keyPrefix| % 0x1_0000;
      assert DecodeRequest(RequestBytes(req)).Ok? ==> |DecodeRequest(RequestBytes(req)).value.keyPrefix| == len;
    }
  }

  /** An empty filter is read back as no filter. */
  lemma EmptyFilterLost(req: Request)
    requires |req.keyPrefix| < 0x1_0000 && req.bloom == Some([])
    ensures DecodeRequest(RequestBytes(req)) == Ok(req.(bloom := None)) != Ok(req)
  {
    assert RequestBytes(req) == RequestBytes(req.(bloom := None));
    RequestRoundTrip(req.(bloom := None));
  }

  /** Every accepted request is the encoding of what it decodes to. */
  lemma AcceptedRequestRewritten(data: ByteString)
    requires DecodeRequest(data).Ok?
    ensures RequestBytes(DecodeRequest(data).value) == data
  {
    Widths();
    var req := DecodeRequest(data).value;
    ToFromBe(data[2..4]);
    HeaderSplit(data);
    var len, rest := FromBe(data[2..4]), data[4..];
    assert rest == rest[..len] + rest[len..];
    assert BloomBytes(req.bloom) == rest[len..];
    Associate([data[0], data[1]] + data[2..4], req.keyPrefix, BloomBytes(req.bloom));
  }

  lemma HeaderSplit(data: ByteString)
    requires |data| >= 4
    ensures data == [data[0], data[1]] + data[2..4] + data[4..]
  {
  }

  // --- scan responses --------------------------------------------------------------------------------------

  function PairBytes(p: Pair): ByteString {
    ToBe(|p.0|, 2) + p.0 + ToBe(|p.1|, 4) + p.1
  }

  function PairsBytes(pairs: seq<Pair>): ByteString {
    if pairs == [] then [] else PairBytes(pairs[0]) + PairsBytes(pairs[1..])
  }

  function Header(scannedKeys: nat, count: nat): ByteString {
    ToBe(scannedKeys, 8) + ToBe(count, 8)
  }

  function ScanResponse(scannedKeys: nat, pairs: seq<Pair>): ByteString {
    Header(scannedKeys, |pairs|) + PairsBytes(pairs)
  }

  lemma {:induction false} PairsBytesAppend(pairs: seq<Pair>, p: Pair)
    ensures PairsBytes(pairs + [p]) == PairsBytes(pairs) + PairBytes(p)
    decreases |pairs|
  {
    if pairs == [] {
      assert ([] + [p])[1..] == [];
      assert PairsBytes([]) == [] && PairBytes(p) + [] == PairBytes(p);
    } else {
      assert (pairs + [p])[1..] == pairs[1..] + [p];
      PairsBytesAppend(pairs[1..], p);
      Associate(PairBytes(pairs[0]), PairsBytes(pairs[1..]), PairBytes(p));
    }
  }

  lemma OneMoreEncoded(header: ByteString, pairs: seq<Pair>, i: nat)
    requires i < |pairs|
    ensures header + PairsBytes(pairs[..i]) + PairBytes(pairs[i]) == header + PairsBytes(pairs[..i + 1])
  {
    assert pairs[..i + 1] == pairs[..i] + [pairs[i]];
    PairsBytesAppend(pairs[..i], pairs[i]);
    Associate(header, PairsBytes(pairs[..i]), PairBytes(pairs[i]));
  }

  method AppendPair(buf: ByteString, p: Pair) returns (r: ByteString)
    ensures r == buf + PairBytes(p)
  {
    var (key, value) := p;
    r := buf + ToBe(|key|, 2);
    r := r + key;
    r := r + ToBe(|value|, 4);
    r := r + value;
  }

  /** `encode_scan_response`. */
  method EncodeScanResponse(scannedKeys: nat, pairs: seq<Pair>) returns (buf: ByteString)
    ensures buf == ScanResponse(scannedKeys, pairs)
  {
    buf := ToBe(scannedKeys, 8);
    buf := buf + ToBe(|pairs|, 8);
    ghost var header := buf;
    for i := 0 to |pairs|
      invariant buf == header + PairsBytes(pairs[..i])
    {
      buf := AppendPair(buf, pairs[i]);
      OneMoreEncoded(header, pairs, i);
    }
    assert pairs[..|pairs|] == pairs;
  }

  /** One pair at the start of `body`, and how many bytes it takes. */
  function ParsePair(body: ByteString): (r: Result<(Pair, nat), string>)
    ensures r.Ok? ==> 6 <= r.value.1 <= |body|
  {
    if 2 > |body| then Err("truncated key length")
    else
      var keyLen := FromBe(body[..2]);
      if 2 + keyLen > |body| then Err("truncated key data")
      else if 2 + keyLen + 4 > |body| then Err("truncated value length")
      else
        var valueLen := FromBe(body[2 + keyLen..2 + keyLen + 4]);
        var end := 2 + keyLen + 4 + valueLen;
        if end > |body| then Err("truncated value data")
        else Ok(((body[2..2 + keyLen], body[2 + keyLen + 4..end]), end))
  }

  function ParsePairs(body: ByteString, count: nat): Result<seq<Pair>, string>
    decreases count
  {
    if count == 0 then Ok([])
    else
      match ParsePair(body)
      case Err(e) => Err(e)
      case Ok((p, n)) => After([p], ParsePairs(body[n..], count - 1))
  }

  function ParseScanResponse(data: ByteString): Result<(nat, seq<Pair>), string> {
    if |data| < 16 then Err("scan response too short")
    else
      match ParsePairs(data[16..], FromBe(data[8..16]))
      case Err(e) => Err(e)
      case Ok(pairs) => Ok((FromBe(data[..8]), pairs))
  }

  /** The loop body of `decode_scan_response`: the pair at `offset` and the offset after it. */
  method DecodePair(body: ByteString, offset: nat) returns (r: Result<(Pair, nat), string>)
    requires offset <= |body|
    ensures r.Err? ==> ParsePair(body[offset..]) == Err(r.error)
    ensures r.Ok? ==> offset + 6 <= r.value.1 <= |body|
    ensures r.Ok? ==> ParsePair(body[offset..]) == Ok((r.value.0, r.value.1 - offset))
  {
    ghost var here := body[offset..];
    var at := offset;
    if at + 2 > |body| {
      return Err("truncated key length");
    }
    assert body[at..at + 2] == here[..2];
    var keyLen := FromBe(body[at..at + 2]);
    at := at + 2;
    if at + keyLen > |body| {
      return Err("truncated key data");
    }
    assert body[at..at + keyLen] == here[2..2 + keyLen];
    var key := body[at..at + keyLen];
    at := at + keyLen;
    if at + 4 > |body| {
      return Err("truncated value length");
    }
    assert body[at..at + 4] == here[2 + keyLen..2 + keyLen + 4];
    var valueLen := FromBe(body[at..at + 4]);
    at := at + 4;
    if at + valueLen > |body| {
      return Err("truncated value data");
    }
    assert body[at..at + valueLen] == here[2 + keyLen + 4..2 + keyLen + 4 + valueLen];
    var value := body[at..at + valueLen];
    at := at + valueLen;
    r := Ok(((key, value), at));
  }

  /**
   The loop of `decode_scan_response`. However large the declared count, its body starts at most once
   per six bytes, plus once.
   */
  method DecodePairs(body: ByteString, count: nat) returns (r: Result<seq<Pair>, string>, ghost iterations: nat)
    ensures r == ParsePairs(body, count)
    ensures 6 * iterations <= |body| + 6
  {
    iterations := 0;
    var offset, i := 0, 0;
    var pairs: seq<Pair> := [];
    NothingParsed(body, count);
    while i < count
      invariant 0 <= i <= count && 0 <= offset <= |body| && iterations == i && 6 * i <= offset
      invariant ParsedSoFar(body, count, offset, i, pairs)
    {
      iterations := iterations + 1;
      var pair := DecodePair(body, offset);
      if pair.Err? {
        ParseFails(body, count, offset, i, pairs);
        return Err(pair.error), iterations;
      }
      var (p, next) := pair.value;
      OneMoreParsed(body, count, offset, i, pairs, p, next);
      offset := next;
      pairs := pairs + [p];
      i := i + 1;
    }
    AllParsed(body, count, offset, pairs);
    r := Ok(pairs);
  }

  function After(pairs: seq<Pair>, r: Result<seq<Pair>, string>): Result<seq<Pair>, string> {
    if r.Ok? then Ok(pairs + r.value) else r
  }

  /** What is left to parse at `offset`, after the first `i` pairs, decides the outcome. */
  ghost predicate ParsedSoFar(body: ByteString, count: nat, offset: nat, i: nat, pairs: seq<Pair>)
    requires i <= count && offset <= |body|
  {
    ParsePairs(body, count) == After(pairs, ParsePairs(body[offset..], count - i))
  }

  lemma NothingParsed(body: ByteString, count: nat)
    ensures ParsedSoFar(body, count, 0, 0, [])
  {
    assert body[0..] == body;
    var r := ParsePairs(body, count);
    if r.Ok? { assert [] + r.value == r.value; }
  }

  lemma AllParsed(body: ByteString, count: nat, offset: nat, pairs: seq<Pair>)
    requires offset <= |body| && ParsedSoFar(body, count, offset, count, pairs)
    ensures ParsePairs(body, count) == Ok(pairs)
  {
    assert pairs + [] == pairs;
  }

  lemma ParseFails(body: ByteString, count: nat, offset: nat, i: nat, pairs: seq<Pair>)
    requires i < count && offset <= |body| && ParsedSoFar(body, count, offset, i, pairs)
    requires ParsePair(body[offset..]).Err?
    ensures ParsePairs(body, count) == Err(ParsePair(body[offset..]).error)
  {
  }

  lemma OneMoreParsed(body: ByteString, count: nat, offset: nat, i: nat, pairs: seq<Pair>, p: Pair, next: nat)
    requires i < count && offset <= next <= |body| && ParsedSoFar(body, count, offset, i, pairs)
    requires ParsePair(body[offset..]) == Ok((p, next - offset))
    ensures ParsedSoFar(body, count, next, i + 1, pairs + [p])
  {
    DropDrop(body, offset, next - offset);
    AfterOneMore(pairs, p, ParsePairs(body[next..], count - i - 1));
  }

  lemma AfterOneMore(pairs: seq<Pair>, p: Pair, r: Result<seq<Pair>, string>)
    ensures After(pairs + [p], r) == After(pairs, After([p], r))
  {
    if r.Ok? { Associate(pairs, [p], r.value); }
  }

  /** `decode_scan_response`. */
  method DecodeScanResponse(data: ByteString) returns (r: Result<(nat, seq<Pair>), string>, ghost iterations: nat)
    ensures r == ParseScanResponse(data)
    ensures 6 * iterations <= |data|
  {
    iterations := 0;
    if |data| < 16 {
      return Err("scan response too short"), 0;
    }
    var scannedKeys, count := FromBe(data[..8]), FromBe(data[8..16]);
    var pairs;
    pairs, iterations := DecodePairs(data[16..], count);
    r := if pairs.Ok? then Ok((scannedKeys, pairs.value)) else Err(pairs.error);
  }

  // --- round trips ------------------------------------------------------------------------------------------

  predicate Fits(p: Pair) { |p.0| < 0x1_0000 && |p.1| < 0x1_0000_0000 }

  lemma PairLayout(p: Pair, rest: ByteString)
    ensures var body := PairBytes(p) + rest;
            && |body| >= 6 + |p.0| + |p.1|
            && body[..2] == ToBe(|p.0|, 2) && body[2..2 + |p.0|] == p.0
            && body[2 + |p.0|..2 + |p.0| + 4] == ToBe(|p.1|, 4)
            && body[2 + |p.0| + 4..2 + |p.0| + 4 + |p.1|] == p.1
  {
    FourFields(ToBe(|p.0|, 2), p.0, ToBe(|p.1|, 4), p.1, rest);
  }

  lemma ParsePairBytes(p: Pair, rest: ByteString)
    requires Fits(p)
    ensures ParsePair(PairBytes(p) + rest) == Ok((p, |PairBytes(p)|))
  {
    Widths();
    FromToBe(|p.0|, 2);
    FromToBe(|p.1|, 4);
    PairLayout(p, rest);
  }

  lemma {:induction false} ParseFirst(p: Pair, others: ByteString, count: nat)
    requires Fits(p) && count > 0
    ensures ParsePairs(PairBytes(p) + others, count) == After([p], ParsePairs(others, count - 1))
  {
    ParsePairBytes(p, others);
    TakeDrop(PairBytes(p), others);
  }

  predicate AllFit(pairs: seq<Pair>) { forall i | 0 <= i < |pairs| :: Fits(pairs[i]) }

  lemma {:induction false} ParsePairsBytes(pairs: seq<Pair>, rest: ByteString)
    requires AllFit(pairs)
    ensures ParsePairs(PairsBytes(pairs) + rest, |pairs|) == Ok(pairs)
    decreases |pairs|
  {
    if pairs != [] {
      var p, others := pairs[0], pairs[1..];
      assert pairs == [p] + others;
      PairsBytesFirst(p, others);
      Associate(PairBytes(p), PairsBytes(others), rest);
      ParseFirst(p, PairsBytes(others) + rest, |pairs|);
      ParsePairsBytes(others, rest);
    }
  }

  lemma FourSlices(body: ByteString, i: nat, j: nat, k: nat, n: nat)
    requires i <= j <= k <= n <= |body|
    ensures body[..n] == body[..i] + body[i..j] + body[j..k] + body[k..n]
  {
  }

  /** Whatever is decoded is within the field widths, and its encoding is what was read. */
  lemma ParsedPairRewritten(body: ByteString)
    requires ParsePair(body).Ok?
    ensures var (p, n) := ParsePair(body).value; Fits(p) && PairBytes(p) == body[..n]
  {
    Widths();
    var (p, n) := ParsePair(body).value;
    var k := 2 + |p.0|;
    ToFromBe(body[..2]);
    ToFromBe(body[k..k + 4]);
    FourSlices(body, 2, k, k + 4, n);
  }

  lemma {:induction false} ParsedPairsRewritten(body: ByteString, count: nat)
    requires ParsePairs(body, count).Ok?
    ensures var pairs := ParsePairs(body, count).value;
            |pairs| == count && AllFit(pairs) && PairsBytes(pairs) <= body
    decreases count
  {
    if count > 0 {
      var (p, n) := ParsePair(body).value;
      ParsedPairRewritten(body);
      ParsedPairsRewritten(body[n..], count - 1);
      PairsBytesFirst(p, ParsePairs(body[n..], count - 1).value);
      PrefixOfRest(body, n, PairsBytes(ParsePairs(body[n..], count - 1).value));
    }
  }

  lemma PairsBytesFirst(p: Pair, others: seq<Pair>)
    ensures PairsBytes([p] + others) == PairBytes(p) + PairsBytes(others)
  {
    assert ([p] + others)[1..] == others;
  }

  lemma ScanResponseLayout(scannedKeys: nat, pairs: seq<Pair>)
    ensures var data := ScanResponse(scannedKeys, pairs);
            && |data| >= 16 && data[..8] == ToBe(scannedKeys, 8) && data[8..16] == ToBe(|pairs|, 8)
            && data[16..] == PairsBytes(pairs)
  {
  }

  /** A scan response survives the wire exactly when every length fits its field. */
  lemma ScanResponseRoundTrip(scannedKeys: nat, pairs: seq<Pair>)
    ensures ParseScanResponse(ScanResponse(scannedKeys, pairs)) == Ok((scannedKeys, pairs))
       <==> && scannedKeys < 0x1_0000_0000_0000_0000 && |pairs| < 0x1_0000_0000_0000_0000
            && AllFit(pairs)
  {
    Widths();
    ScanResponseLayout(scannedKeys, pairs);
    FromToBe(scannedKeys, 8);
    FromToBe(|pairs|, 8);
    var body, count := PairsBytes(pairs), FromBe(ToBe(|pairs|, 8));
    assert body + [] == body;
    if AllFit(pairs) {
      ParsePairsBytes(pairs, []);
    }
    if ParsePairs(body, count).Ok? {
      ParsedPairsRewritten(body, count);
    }
  }

  /** Anything accepted starts with the encoding of what it decodes to. */
  lemma AcceptedScanResponseRewritten(data: ByteString)
    requires ParseScanResponse(data).Ok?
    ensures var (scannedKeys, pairs) := ParseScanResponse(data).value; ScanResponse(scannedKeys, pairs) <= data
  {
    var (scannedKeys, pairs) := ParseScanResponse(data).value;
    ToFromBe(data[..8]);
    ToFromBe(data[8..16]);
    ParsedPairsRewritten(data[16..], FromBe(data[8..16]));
    assert data[..8] + data[8..16] == data[..16] && data == data[..16] + data[16..];
    assert Header(scannedKeys, |pairs|) == data[..16];
  }

  // --- aggregate responses -------------------------------------------------------------------------------------

  function CountResponse(scannedKeys: nat, count: nat): ByteString { Header(scannedKeys, count) }

  /** `encode_count_response`. */
  method EncodeCountResponse(scannedKeys: nat, count: nat) returns (buf: ByteString)
    ensures buf == CountResponse(scannedKeys, count)
  {
    buf := ToBe(scannedKeys, 8);
    buf := buf + ToBe(count, 8);
  }

  function KeyField(key: Option<ByteString>): ByteString {
    match key
    case Some(k) => ToBe(|k|, 2) + k
    case None => ToBe(0, 2)
  }

  function MinMaxResponse(scannedKeys: nat, minKey: Option<ByteString>, maxKey: Option<ByteString>): ByteString {
    Header(scannedKeys, if minKey.Some? || maxKey.Some? then 1 else 0) + KeyField(minKey) + KeyField(maxKey)
  }

  /** `encode_min_max_response`. */
  method EncodeMinMaxResponse(scannedKeys: nat, minKey: Option<ByteString>, maxKey: Option<ByteString>)
    returns (buf: ByteString)
    ensures buf == MinMaxResponse(scannedKeys, minKey, maxKey)
  {
    buf := ToBe(scannedKeys, 8);
    buf := buf + ToBe(if minKey.Some? || maxKey.Some? then 1 else 0, 8);
    buf := AppendKey(buf, minKey);
    buf := AppendKey(buf, maxKey);
  }

  method AppendKey(buf: ByteString, key: Option<ByteString>) returns (r: ByteString)
    ensures r == buf + KeyField(key)
  {
    if key.Some? {
      r := buf + ToBe(|key.value|, 2);
      r := r + key.value;
    } else {
      r := buf + ToBe(0, 2);
    }
  }

  /** A reader of count responses, following the documented layout. */
  function ReadCount(data: ByteString): Option<(nat, nat)> {
    if |data| != 16 then None else Some((FromBe(data[..8]), FromBe(data[8..])))
  }

  /** A length-prefixed key, where length 0 means absent, and the bytes after it. */
  function ReadKeyField(body: ByteString): Option<(Option<ByteString>, ByteString)> {
    if |body| < 2 then None
    else
      var n := FromBe(body[..2]);
      if |body| < 2 + n then None
      else Some((if n == 0 then None else Some(body[2..2 + n]), body[2 + n..]))
  }

  /** A reader of min/max responses, following the documented layout. */
  function ReadMinMax(data: ByteString): Option<(nat, nat, Option<ByteString>, Option<ByteString>)> {
    if |data| < 16 then None
    else
      match ReadKeyField(data[16..])
      case None => None
      case Some((minKey, rest)) =>
        match ReadKeyField(rest)
        case None => None
        case Some((maxKey, end)) =>
          if end == [] then Some((FromBe(data[..8]), FromBe(data[8..16]), minKey, maxKey)) else None
  }

  lemma CountResponseRead(scannedKeys: nat, count: nat)
    requires scannedKeys < 0x1_0000_0000_0000_0000 && count < 0x1_0000_0000_0000_0000
    ensures ReadCount(CountResponse(scannedKeys, count)) == Some((scannedKeys, count))
  {
    Widths();
    FromToBe(scannedKeys, 8);
    FromToBe(count, 8);
    TakeDrop(ToBe(scannedKeys, 8), ToBe(count, 8));
  }

  predicate FitsKeyField(key: Option<ByteString>) { key.Some? ==> 0 < |key.value| < 0x1_0000 }

  lemma KeyFieldRead(key: Option<ByteString>, rest: ByteString)
    requires FitsKeyField(key)
    ensures ReadKeyField(KeyField(key) + rest) == Some((key, rest))
  {
    Widths();
    var k := if key.Some? then key.value else [];
    FromToBe(|k|, 2);
    var body := KeyField(key) + rest;
    assert KeyField(key) == ToBe(|k|, 2) + k;
    assert body[..2] == ToBe(|k|, 2) && body[2..2 + |k|] == k && body[2 + |k|..] == rest;
  }

  /** Both keys come back, and the result count is 1 exactly if there is a key. */
  lemma MinMaxResponseRead(scannedKeys: nat, minKey: Option<ByteString>, maxKey: Option<ByteString>)
    requires scannedKeys < 0x1_0000_0000_0000_0000 && FitsKeyField(minKey) && FitsKeyField(maxKey)
    ensures ReadMinMax(MinMaxResponse(scannedKeys, minKey, maxKey))
         == Some((scannedKeys, if minKey == None && maxKey == None then 0 else 1, minKey, maxKey))
  {
    var count := if minKey.Some? || maxKey.Some? then 1 else 0;
    Associate(Header(scannedKeys, count), KeyField(minKey), KeyField(maxKey));
    HeaderRead(scannedKeys, count, KeyField(minKey) + KeyField(maxKey));
    KeyFieldRead(minKey, KeyField(maxKey));
    KeyFieldRead(maxKey, []);
    assert KeyField(maxKey) + [] == KeyField(maxKey);
  }

  lemma HeaderRead(scannedKeys: nat, count: nat, body: ByteString)
    requires scannedKeys < 0x1_0000_0000_0000_0000 && count < 0x1_0000_0000_0000_0000
    ensures var data := Header(scannedKeys, count) + body;
            |data| >= 16 && FromBe(data[..8]) == scannedKeys && FromBe(data[8..16]) == count && data[16..] == body
  {
    Widths();
    FromToBe(scannedKeys, 8);
    FromToBe(count, 8);
    FourFields(ToBe(scannedKeys, 8), ToBe(count, 8), [], [], body);
    assert ToBe(scannedKeys, 8) + ToBe(count, 8) + [] + [] + body == Header(scannedKeys, count) + body;
    TakeDrop(Header(scannedKeys, count), body);
  }
}
