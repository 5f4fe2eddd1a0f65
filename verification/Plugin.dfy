/** The coprocessor plugin: collects the pairs of the requested ranges and answers one operation on them. */
module Plugin {
  import opened Wrappers
  import opened Bytes
  import opened BloomBits
  import opened Protocol
  import opened IndexScan
  import opened Aggregate
  import opened Ranges

  /** Region-local storage: ascending pairs, and the ranges it will not serve. */
  datatype Storage = Storage(pairs: seq<Pair>, refused: set<KeyRange>)

  function RawScan(storage: Storage, r: KeyRange): Result<seq<Pair>, string> {
    if r in storage.refused then Err("range refused") else Ok(InRange(r, storage.pairs))
  }

  /** The collected pairs with the request's prefix. */
  function Found(pairs: seq<Pair>, ranges: seq<KeyRange>, req: Request): seq<Pair> {
    Rows(req.table, req.keyPrefix, Collect(pairs, ranges))
  }

  ghost predicate ExtremesReply(found: seq<Pair>, least: Option<ByteString>, greatest: Option<ByteString>,
                                reply: ByteString)
  {
    IsLeast(found, least) && IsGreatest(found, greatest) && reply == MinMaxResponse(|found|, least, greatest)
  }

  /** What the reply to a decoded request has to be. */
  ghost predicate Answers(hash: Hash, pairs: seq<Pair>, ranges: seq<KeyRange>, req: Request, reply: ByteString) {
    var found := Found(pairs, ranges, req);
    match req.op
    case CountScan => reply == CountResponse(|found|, |found|)
    case MinMaxScan => exists least, greatest :: ExtremesReply(found, least, greatest, reply)
    case _ =>
      reply == ScanResponse(|found|, if req.bloom.None? || MayContain(hash, req.bloom.value, []) then found else [])
  }

  /** The pairs of all ranges, or the error of the first range that is refused. */
  method CollectRanges(storage: Storage, ranges: seq<KeyRange>) returns (r: Result<seq<Pair>, string>)
    ensures r.Ok? <==> forall i | 0 <= i < |ranges| :: ranges[i] !in storage.refused
    ensures r.Ok? ==> r.value == Collect(storage.pairs, ranges)
  {
    var allPairs: seq<Pair> := [];
    for i := 0 to |ranges|
      invariant forall j | 0 <= j < i :: ranges[j] !in storage.refused
      invariant allPairs == Collect(storage.pairs, ranges[..i])
    {
      var pairs := RawScan(storage, ranges[i]);
      if pairs.Err? {
        return Err(pairs.error);
      }
      CollectOneMore(storage.pairs, ranges, i);
      allPairs := allPairs + pairs.value;
    }
    assert ranges[..|ranges|] == ranges;
    r := Ok(allPairs);
  }

  /** `on_raw_coprocessor_request`. */
  method OnRawCoprocessorRequest(hash: Hash, ranges: seq<KeyRange>, request: ByteString, storage: Storage)
    returns (r: Result<ByteString, string>)
    ensures r.Ok? <==> DecodeRequest(request).Ok? && forall i | 0 <= i < |ranges| :: ranges[i] !in storage.refused
    ensures r.Ok? ==> Answers(hash, storage.pairs, ranges, DecodeRequest(request).value, r.value)
  {
    var decoded := DecodeRequest(request);
    if decoded.Err? {
      return Err("failed to decode request: " + decoded.error);
    }
    var collected := CollectRanges(storage, ranges);
    if collected.Err? {
      return Err(collected.error);
    }
    var reply := Dispatch(hash, decoded.value, collected.value, storage.pairs, ranges);
    r := Ok(reply);
  }

  method Dispatch(hash: Hash, req: Request, allPairs: seq<Pair>, ghost pairs: seq<Pair>, ghost ranges: seq<KeyRange>)
    returns (reply: ByteString)
    requires allPairs == Collect(pairs, ranges)
    ensures Answers(hash, pairs, ranges, req, reply)
  {
    match req.op {
      case CountScan =>
        var count, scannedKeys := ExecuteCount(req.table, req.keyPrefix, allPairs);
        reply := EncodeCountResponse(scannedKeys, count);
      case MinMaxScan =>
        var minKey, maxKey, scannedKeys := ExecuteMinMax(req.table, req.keyPrefix, allPairs);
        reply := EncodeMinMaxResponse(scannedKeys, minKey, maxKey);
        assert ExtremesReply(Found(pairs, ranges, req), minKey, maxKey, reply);
      case _ =>
        reply := ScanReply(hash, req, allPairs);
    }
  }

  /** The `IndexScan` arm, which `FilterScan` repeats: no limit, and no Bloom positions. */
  method ScanReply(hash: Hash, req: Request, allPairs: seq<Pair>) returns (reply: ByteString)
    ensures var found := Rows(req.table, req.keyPrefix, allPairs);
            reply == ScanResponse(|found|,
                if req.bloom.None? || MayContain(hash, req.bloom.value, []) then found else [])
  {
    var params := Params(req.table, req.keyPrefix, 0, req.bloom, []);
    if req.bloom.None? {
      PlainScan(hash, params, allPairs);
    } else {
      PositionlessScan(hash, params, allPairs);
    }
    ghost var found := Rows(req.table, req.keyPrefix, allPairs);
    assert [] + found == found;
    var result := ExecuteIndexScan(hash, params, allPairs);
    reply := EncodeScanResponse(result.value.scannedKeys, result.value.pairs);
  }

  // --- pushdown refines evaluation by the client ----------------------------------------------------------

  /** Client-side evaluation: of the stored pairs, those in some range and with the prefix. */
  function Wanted(pairs: seq<Pair>, ranges: seq<KeyRange>, req: Request): seq<Pair> {
    Rows(req.table, req.keyPrefix, Covered(pairs, ranges))
  }

  lemma FoundAndWanted(pairs: seq<Pair>, ranges: seq<KeyRange>, req: Request)
    ensures var m := Rows(req.table, req.keyPrefix, pairs);
            Found(pairs, ranges, req) == Collect(m, ranges) && Wanted(pairs, ranges, req) == Covered(m, ranges)
  {
    CollectCommutes(req.table, req.keyPrefix, pairs, ranges);
    CoveredCommutes(req.table, req.keyPrefix, pairs, ranges);
  }

  const U64_RANGE := 0x1_0000_0000_0000_0000

  /** For ascending ranges, the decoded reply is exactly what the client would have computed, in order. */
  lemma IndexScanPushdown(hash: Hash, pairs: seq<Pair>, ranges: seq<KeyRange>, req: Request, reply: ByteString)
    requires Answers(hash, pairs, ranges, req, reply) && (req.op.IndexScan? || req.op.FilterScan?) && req.bloom.None?
    requires Ascending(pairs) && AscendingRanges(ranges)
    requires |Wanted(pairs, ranges, req)| < U64_RANGE && forall p | p in pairs :: Fits(p)
    ensures ParseScanResponse(reply) == Ok((|Wanted(pairs, ranges, req)|, Wanted(pairs, ranges, req)))
  {
    var m := Rows(req.table, req.keyPrefix, pairs);
    FoundAndWanted(pairs, ranges, req);
    RowsAscending(req.table, req.keyPrefix, pairs);
    CollectAscending(m, ranges);
    var wanted := Wanted(pairs, ranges, req);
    forall i | 0 <= i < |wanted| ensures Fits(wanted[i]) {
      CoveredMembers(m, ranges, wanted[i]);
      RowsMembers(req.table, req.keyPrefix, pairs, wanted[i]);
    }
    ScanResponseRoundTrip(|wanted|, wanted);
  }

  /** The whole way: encode the request, let the plugin answer it, decode the reply. */
  method RemoteIndexScan(hash: Hash, req: Request, ranges: seq<KeyRange>, storage: Storage)
    returns (r: Result<(nat, seq<Pair>), string>)
    requires (req.op.IndexScan? || req.op.FilterScan?) && req.bloom.None? && |req.keyPrefix| < 0x1_0000
    requires forall i | 0 <= i < |ranges| :: ranges[i] !in storage.refused
    requires Ascending(storage.pairs) && AscendingRanges(ranges)
    requires |Wanted(storage.pairs, ranges, req)| < U64_RANGE && forall p | p in storage.pairs :: Fits(p)
    ensures r == Ok((|Wanted(storage.pairs, ranges, req)|, Wanted(storage.pairs, ranges, req)))
  {
    RequestRoundTrip(req);
    var request := EncodeRequest(req);
    var reply := OnRawCoprocessorRequest(hash, ranges, request, storage);
    IndexScanPushdown(hash, storage.pairs, ranges, req, reply.value);
    ghost var iterations;
    r, iterations := DecodeScanResponse(reply.value);
  }

  /**
   For any ranges the decoded reply lists the rows range by range. These are the client's rows, each as
   often, if and only if no row with the prefix lies in two ranges; otherwise rows are repeated.
   */
  lemma DisjointPushdown(hash: Hash, pairs: seq<Pair>, ranges: seq<KeyRange>, req: Request, reply: ByteString)
    requires Answers(hash, pairs, ranges, req, reply) && (req.op.IndexScan? || req.op.FilterScan?) && req.bloom.None?
    requires |Found(pairs, ranges, req)| < U64_RANGE && forall p | p in pairs :: Fits(p)
    ensures ParseScanResponse(reply) == Ok((|Found(pairs, ranges, req)|, Found(pairs, ranges, req)))
    ensures multiset(Found(pairs, ranges, req)) == multiset(Wanted(pairs, ranges, req))
       <==> NoRowTwice(pairs, ranges, req)
  {
    var found := Found(pairs, ranges, req);
    var m := Rows(req.table, req.keyPrefix, pairs);
    FoundAndWanted(pairs, ranges, req);
    forall i | 0 <= i < |found| ensures Fits(found[i]) {
      CollectMembers(m, ranges, found[i]);
      RowsMembers(req.table, req.keyPrefix, pairs, found[i]);
    }
    ScanResponseRoundTrip(|found|, found);
    RowsTwice(pairs, ranges, req);
    if NoRowTwice(pairs, ranges, req) {
      CollectDisjoint(m, ranges);
    } else {
      assert |multiset(found)| == |found| && |multiset(Wanted(pairs, ranges, req))| == |Wanted(pairs, ranges, req)|;
    }
  }

  /** No row with the request's prefix lies in two of the ranges. */
  ghost predicate NoRowTwice(pairs: seq<Pair>, ranges: seq<KeyRange>, req: Request) {
    forall i | 0 <= i < |pairs| && InTable(req.table, req.keyPrefix, pairs[i].0) :: Hits(ranges, pairs[i].0) <= 1
  }

  lemma RowsTwice(pairs: seq<Pair>, ranges: seq<KeyRange>, req: Request)
    ensures var m := Rows(req.table, req.keyPrefix, pairs);
            NoRowTwice(pairs, ranges, req) <==> forall i | 0 <= i < |m| :: Hits(ranges, m[i].0) <= 1
    ensures |Found(pairs, ranges, req)| == |Wanted(pairs, ranges, req)| <==> NoRowTwice(pairs, ranges, req)
  {
    var m := Rows(req.table, req.keyPrefix, pairs);
    FoundAndWanted(pairs, ranges, req);
    CollectSize(m, ranges);
    CoveredSize(m, ranges);
    if NoRowTwice(pairs, ranges, req) {
      forall i | 0 <= i < |m| ensures Hits(ranges, m[i].0) <= 1 { RowsMembers(req.table, req.keyPrefix, pairs, m[i]); }
    } else {
      var i :| 0 <= i < |pairs| && InTable(req.table, req.keyPrefix, pairs[i].0) && Hits(ranges, pairs[i].0) > 1;
      RowsMembers(req.table, req.keyPrefix, pairs, pairs[i]);
      var j :| 0 <= j < |m| && m[j] == pairs[i];
    }
  }

  /** The count is the number of rows the client wants exactly when no wanted row lies in two ranges. */
  lemma CountPushdown(hash: Hash, pairs: seq<Pair>, ranges: seq<KeyRange>, req: Request, reply: ByteString)
    requires Answers(hash, pairs, ranges, req, reply) && req.op.CountScan?
    requires |Found(pairs, ranges, req)| < U64_RANGE
    ensures ReadCount(reply) == Some((|Found(pairs, ranges, req)|, |Found(pairs, ranges, req)|))
    ensures ReadCount(reply).value.1 == |Wanted(pairs, ranges, req)| <==> NoRowTwice(pairs, ranges, req)
  {
    CountResponseRead(|Found(pairs, ranges, req)|, |Found(pairs, ranges, req)|);
    RowsTwice(pairs, ranges, req);
  }

  /** The least and greatest keys are the client's, whatever the ranges; absent exactly if nothing is wanted. */
  lemma MinMaxPushdown(hash: Hash, pairs: seq<Pair>, ranges: seq<KeyRange>, req: Request, reply: ByteString)
    requires Answers(hash, pairs, ranges, req, reply) && req.op.MinMaxScan?
    requires |Found(pairs, ranges, req)| < U64_RANGE && forall p | p in pairs :: Fits(p)
    ensures ReadMinMax(reply).Some?
    ensures var (scanned, count, least, greatest) := ReadMinMax(reply).value;
            && scanned == |Found(pairs, ranges, req)|
            && count == (if Wanted(pairs, ranges, req) == [] then 0 else 1)
            && IsLeast(Wanted(pairs, ranges, req), least) && IsGreatest(Wanted(pairs, ranges, req), greatest)
  {
    var m := Rows(req.table, req.keyPrefix, pairs);
    var found, wanted := Found(pairs, ranges, req), Wanted(pairs, ranges, req);
    FoundAndWanted(pairs, ranges, req);
    var least, greatest :| ExtremesReply(found, least, greatest, reply);
    forall p ensures p in found <==> p in wanted {
      CollectMembers(m, ranges, p);
      CoveredMembers(m, ranges, p);
    }
    SameExtremes(found, wanted, least, greatest);
    forall i | 0 <= i < |found| ensures 0 < |found[i].0| < 0x1_0000 {
      CollectMembers(m, ranges, found[i]);
      RowsMembers(req.table, req.keyPrefix, pairs, found[i]);
    }
    MinMaxResponseRead(|found|, least, greatest);
  }

  lemma SameExtremes(a: seq<Pair>, b: seq<Pair>, least: Option<ByteString>, greatest: Option<ByteString>)
    requires IsLeast(a, least) && IsGreatest(a, greatest)
    requires forall p :: p in a <==> p in b
    ensures IsLeast(b, least) && IsGreatest(b, greatest)
  {
    if b != [] { assert b[0] in b; }
    if a != [] {
      assert a[0] in a;
      KeyMoves(a, b, least.value);
      KeyMoves(a, b, greatest.value);
      forall i | 0 <= i < |b| ensures !Less(b[i].0, least.value) && !Less(greatest.value, b[i].0) {
        assert b[i] in a;
        var j :| 0 <= j < |a| && a[j] == b[i];
      }
    }
  }

  lemma KeyMoves(a: seq<Pair>, b: seq<Pair>, key: ByteString)
    requires forall p | p in a :: p in b
    requires exists i :: 0 <= i < |a| && a[i].0 == key
    ensures exists i :: 0 <= i < |b| && b[i].0 == key
  {
    var i :| 0 <= i < |a| && a[i].0 == key;
    assert a[i] in b;
    var j :| 0 <= j < |b| && b[j] == a[i];
    assert b[j].0 == key;
  }

  /**
   A request's Bloom filter cannot select rows: the reply lists all rows found or none of them, and
   which of the two depends on the filter and the empty string only.
   */
  lemma BloomIsAllOrNothing(hash: Hash, pairs: seq<Pair>, ranges: seq<KeyRange>, req: Request, reply: ByteString)
    requires Answers(hash, pairs, ranges, req, reply) && (req.op.IndexScan? || req.op.FilterScan?) && req.bloom.Some?
    requires forall p | p in Found(pairs, ranges, req) :: Fits(p)
    requires |Found(pairs, ranges, req)| < U64_RANGE
    ensures var found := Found(pairs, ranges, req);
            ParseScanResponse(reply) == Ok((|found|, if MayContain(hash, req.bloom.value, []) then found else []))
  {
    var found := Found(pairs, ranges, req);
    ScanResponseRoundTrip(|found|, found);
    ScanResponseRoundTrip(|found|, []);
  }

  // --- inputs ---------------------------------------------------------------------------------------------

  const ONE_ROW: seq<Pair> := [([2], [])]
  const AROUND: KeyRange := KeyRange([2], [3])

  lemma OneRow(req: Request)
    requires req.table == 2 && req.keyPrefix == []
    ensures Contains(AROUND, [2])
    ensures InRange(AROUND, ONE_ROW) == ONE_ROW && Rows(2, [], ONE_ROW) == ONE_ROW
  {
    assert ONE_ROW[1..] == [] && [ONE_ROW[0]] + [] == ONE_ROW;
    assert !Less([], []);
    assert [2][1..] == [] && [3][1..] == [];
    assert InRange(AROUND, []) == [] && Rows(2, [], []) == [];
  }

  /** One stored row, and two requested ranges around it: the count is 2, and a scan lists the row twice. */
  lemma RowCountedTwice(req: Request)
    requires req.table == 2 && req.keyPrefix == []
    ensures |Found(ONE_ROW, [AROUND, AROUND], req)| == 2 && |Wanted(ONE_ROW, [AROUND, AROUND], req)| == 1
  {
    OneRow(req);
    var ranges := [AROUND, AROUND];
    assert ranges[1..] == [AROUND] && [AROUND][1..] == [];
    assert Collect(ONE_ROW, [AROUND]) == ONE_ROW + [] == ONE_ROW;
    assert Collect(ONE_ROW, ranges) == ONE_ROW + ONE_ROW;
    RowsConcat(2, [], ONE_ROW, ONE_ROW);
    assert Hits([AROUND], [2]) == 1 && Hits(ranges, [2]) == 2;
    assert ONE_ROW[1..] == [] && Covered([], ranges) == [] && Covered(ONE_ROW, ranges) == ONE_ROW;
  }

  /** A filter of one zero byte, on the same row: the reply says that a row was scanned and lists none. */
  lemma FilterEmptiesReply(hash: Hash, req: Request, reply: ByteString)
    requires (req.op.IndexScan? || req.op.FilterScan?) && req.table == 2 && req.keyPrefix == []
    requires req.bloom == Some([0])
    requires Answers(hash, ONE_ROW, [AROUND], req, reply)
    ensures ParseScanResponse(reply) == Ok((1, []))
  {
    OneRow(req);
    assert [AROUND][1..] == [] && Collect(ONE_ROW, [AROUND]) == ONE_ROW + [] == ONE_ROW;
    var found := Found(ONE_ROW, [AROUND], req);
    assert found == ONE_ROW;
    assert !ProbeSet([0], hash([]), 0) by { ZeroHasNoBits(ScanProbe(hash([]), 0, 8) % 8); }
    assert !MayContain(hash, [0], []);
    BloomIsAllOrNothing(hash, ONE_ROW, [AROUND], req, reply);
  }
}
