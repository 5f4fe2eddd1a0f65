/** Filter predicates evaluated on encoded keys, and on the terms those keys encode. */
module KeyFilter {
  import opened Wrappers
  import opened Bytes
  import opened Sequences
  import opened TermCodec
  import opened KeyTerms

  datatype FilterPredicate =
    | TermEquals(position: nat, value: ByteString)
    | TermTypeEquals(position: nat, typeByte: Byte)
    | And(preds: seq<FilterPredicate>)
    | Or(preds: seq<FilterPredicate>)

  /** `extract_term_at`: errors become `None`. It finds exactly what `extract_term_bytes` finds. */
  method ExtractTermAt(key: ByteString, position: nat) returns (r: Outcome<Option<ByteString>>)
    ensures r == TermAt(key, position)
  {
    var offset := 0;
    var i := 0;
    AllRemaining(key, position);
    while i <= position
      invariant 0 <= i <= position && Remaining(key, position, offset, i)
      decreases position - i
    {
      if offset >= |key| {
        return Done(None);
      }
      var len := EncodedTermLen(key[offset..]);
      match len {
        case Failed(_) => return Done(None);
        case Panics => return Panics;
        case Done(n) =>
          if i == position {
            RemainingFirst(key, position, offset, n);
            if offset + n > |key| {
              return Panics;
            }
            return Done(Some(key[offset..offset + n]));
          }
          RemainingNext(key, position, offset, i, n);
          offset := offset + n;
      }
      i := i + 1;
    }
  }

  function TermAt(key: ByteString, position: nat): Outcome<Option<ByteString>> {
    match NthTerm(key, position)
    case Done(bytes) => Done(Some(bytes))
    case Failed(_) => Done(None)
    case Panics => Panics
  }

  /** `evaluate_filter`; `all` and `any` stop at the first child that decides. */
  function Evaluate(key: ByteString, p: FilterPredicate): Outcome<bool>
    decreases p
  {
    match p
    case TermEquals(position, value) =>
      (match TermAt(key, position)
       case Done(term) => Done(term == Some(value))
       case _ => Panics)
    case TermTypeEquals(position, typeByte) =>
      (match TermAt(key, position)
       case Done(Some(term)) => Done(term != [] && term[0] == typeByte)
       case Done(None) => Done(false)
       case _ => Panics)
    case And(preds) => EvaluateUntil(key, preds, false)
    case Or(preds) => EvaluateUntil(key, preds, true)
  }

  /** Left to right, stopping at the first child whose value is `stop`. */
  function EvaluateUntil(key: ByteString, preds: seq<FilterPredicate>, stop: bool): Outcome<bool>
    decreases preds
  {
    if preds == [] then Done(!stop)
    else
      match Evaluate(key, preds[0])
      case Done(b) => if b == stop then Done(stop) else EvaluateUntil(key, preds[1..], stop)
      case other => other
  }

  /** The meaning of a predicate on decoded terms. */
  ghost predicate Holds(ts: seq<Term>, p: FilterPredicate)
    decreases p
  {
    match p
    case TermEquals(position, value) => position < |ts| && Encode(ts[position]) == value
    case TermTypeEquals(position, typeByte) => position < |ts| && ts[position].tag == typeByte
    case And(preds) => forall i | 0 <= i < |preds| :: Holds(ts, preds[i])
    case Or(preds) => exists i | 0 <= i < |preds| :: Holds(ts, preds[i])
  }

  /** On a key of whole terms, evaluation on bytes is the predicate's meaning on the terms. */
  lemma {:induction false} EvaluateIsHolds(ts: seq<Term>, p: FilterPredicate)
    requires AllValid(ts)
    ensures Evaluate(EncodeAll(ts), p) == Done(Holds(ts, p))
    decreases p
  {
    match p
    case TermEquals(position, _) => NthTermOfWholeKey(ts, position);
    case TermTypeEquals(position, _) => NthTermOfWholeKey(ts, position);
    case And(preds) => EvaluateUntilIsHolds(ts, preds, false);
    case Or(preds) => EvaluateUntilIsHolds(ts, preds, true);
  }

  lemma {:induction false} EvaluateUntilIsHolds(ts: seq<Term>, preds: seq<FilterPredicate>, stop: bool)
    requires AllValid(ts)
    ensures EvaluateUntil(EncodeAll(ts), preds, stop)
         == Done(if exists i | 0 <= i < |preds| :: Holds(ts, preds[i]) == stop then stop else !stop)
    decreases preds
  {
    if preds != [] {
      EvaluateIsHolds(ts, preds[0]);
      EvaluateUntilIsHolds(ts, preds[1..], stop);
      if i :| 0 <= i < |preds[1..]| && Holds(ts, preds[1..][i]) == stop {
        assert preds[1..][i] == preds[i + 1];
      }
      if i :| 0 < i < |preds| && Holds(ts, preds[i]) == stop {
        assert preds[1..][i - 1] == preds[i];
      }
    }
  }

  /** `filter_scan_results`: the table byte is stripped; an empty key never passes. */
  function FilterPairs(pairs: seq<Pair>, p: FilterPredicate): Outcome<seq<Pair>> {
    if pairs == [] then Done([])
    else if pairs[0].0 == [] then FilterPairs(pairs[1..], p)
    else
      match Evaluate(pairs[0].0[1..], p)
      case Done(b) =>
        (match FilterPairs(pairs[1..], p)
         case Done(others) => Done((if b then [pairs[0]] else []) + others)
         case other => other)
      case Failed(e) => Failed(e)
      case Panics => Panics
  }

  /** On any pairs: exactly those pass that have a key and whose key, without the table byte, satisfies `p`. */
  lemma {:induction false} FilterPairsKeeps(pairs: seq<Pair>, p: FilterPredicate, q: Pair)
    requires FilterPairs(pairs, p).Done?
    ensures q in FilterPairs(pairs, p).value <==> q in pairs && q.0 != [] && Evaluate(q.0[1..], p) == Done(true)
    decreases |pairs|
  {
    if pairs != [] {
      FilterPairsKeeps(pairs[1..], p, q);
    }
  }

  /** A stored row: a table byte followed by whole terms. */
  datatype Row = Row(table: Byte, terms: seq<Term>, value: ByteString)

  function RowPair(r: Row): Pair { ([r.table] + EncodeAll(r.terms), r.value) }

  function RowPairs(rows: seq<Row>): seq<Pair> { seq(|rows|, i requires 0 <= i < |rows| => RowPair(rows[i])) }

  ghost function Matching(rows: seq<Row>, p: FilterPredicate): seq<Row> {
    if rows == [] then [] else (if Holds(rows[0].terms, p) then [rows[0]] else []) + Matching(rows[1..], p)
  }

  lemma {:induction false} RowEvaluated(r: Row, p: FilterPredicate)
    requires AllValid(r.terms)
    ensures RowPair(r).0 != [] && Evaluate(RowPair(r).0[1..], p) == Done(Holds(r.terms, p))
  {
    TakeDrop([r.table], EncodeAll(r.terms));
    EvaluateIsHolds(r.terms, p);
  }

  lemma RowPairsConcat(a: seq<Row>, b: seq<Row>)
    ensures RowPairs(a + b) == RowPairs(a) + RowPairs(b)
  {
  }

  /** Filtering the raw pairs is filtering the rows by the predicate's meaning, in order. */
  lemma {:induction false} FilterPairsIsMatching(rows: seq<Row>, p: FilterPredicate)
    requires forall i | 0 <= i < |rows| :: AllValid(rows[i].terms)
    ensures FilterPairs(RowPairs(rows), p) == Done(RowPairs(Matching(rows, p)))
    decreases |rows|
  {
    if rows == [] {
      assert RowPairs(rows) == [] == RowPairs(Matching(rows, p));
    } else {
      var pairs := RowPairs(rows);
      var first := if Holds(rows[0].terms, p) then [rows[0]] else [];
      assert pairs[1..] == RowPairs(rows[1..]);
      RowEvaluated(rows[0], p);
      FilterPairsIsMatching(rows[1..], p);
      RowPairsConcat(first, Matching(rows[1..], p));
      assert RowPairs(first) == if Holds(rows[0].terms, p) then [pairs[0]] else [];
    }
  }
}
