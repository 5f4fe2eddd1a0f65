/**
 The terms that the storage layer writes into keys, kind by kind, and that the coprocessor finds them
 again: the lengths it goes by are those of the encoder.
 */
module StoredTerms {
  import opened Bytes
  import opened TermCodec
  import opened KeyTerms

  /** Fields of fixed width: hashes, short strings and numbers as big-endian bytes. */
  type Bytes4 = s: ByteString | |s| == 4 witness [0, 0, 0, 0]
  type Bytes8 = s: ByteString | |s| == 8 witness [0, 0, 0, 0, 0, 0, 0, 0]
  type Bytes16 = s: ByteString | |s| == 16 witness seq(16, _ => 0)
  type Bytes18 = s: ByteString | |s| == 18 witness seq(18, _ => 0)
  type Bytes24 = s: ByteString | |s| == 24 witness seq(24, _ => 0)

  /** Whether a string is stored in place or as a hash. */
  datatype Size = Small | Big

  /** The date and time types, which share one representation. */
  datatype TimeKind = DateTime | Time | Date | GYearMonth | GYear | GMonthDay | GDay | GMonth

  /** `EncodedTerm`, without the default graph, which is written as nothing. */
  datatype StoredTerm =
    | NamedNode(iri: Bytes16)
    | NumericalBlankNode(id: Bytes16)
    | NamedBlankNode(size: Size, id: Bytes16)
    | StringLiteral(size: Size, value: Bytes16)
    | LangString(valueSize: Size, languageSize: Size, value: Bytes16, language: Bytes16)
    | DirLangString(ltr: bool, valueSize: Size, languageSize: Size, value: Bytes16, language: Bytes16)
    | TypedLiteral(size: Size, value: Bytes16, datatypeIri: Bytes16)
    | BooleanLiteral(b: bool)
    | FloatLiteral(f: Bytes4)
    | DoubleLiteral(d: Bytes8)
    | IntegerLiteral(i: Bytes8)
    | DecimalLiteral(n: Bytes16)
    | TimeLiteral(kind: TimeKind, t: Bytes18)
    | DurationLiteral(both: Bytes24)
    | YearMonthDuration(months: Bytes8)
    | DayTimeDuration(seconds: Bytes16)
    | TripleTerm(subj: StoredTerm, pred: StoredTerm, obj: StoredTerm)

  function Pick(size: Size, small: Byte, big: Byte): Byte { if size.Small? then small else big }

  function TimeType(kind: TimeKind): Byte {
    match kind
    case DateTime => 34
    case Time => 35
    case Date => 36
    case GYearMonth => 37
    case GYear => 38
    case GMonthDay => 39
    case GDay => 40
    case GMonth => 41
  }

  /** `write_term`: a type byte, then the fields. */
  function WriteTerm(t: StoredTerm): ByteString {
    match t
    case NamedNode(iri) => [1] + iri
    case NumericalBlankNode(id) => [8] + id
    case NamedBlankNode(size, id) => [Pick(size, 9, 10)] + id
    case StringLiteral(size, value) => [Pick(size, 16, 17)] + value
    case LangString(v, l, value, language) => [Pick(v, Pick(l, 20, 21), Pick(l, 22, 23))] + language + value
    case DirLangString(ltr, v, l, value, language) =>
      [if ltr then Pick(v, Pick(l, 56, 57), Pick(l, 58, 59)) else Pick(v, Pick(l, 60, 61), Pick(l, 62, 63))]
      + language + value
    case TypedLiteral(size, value, datatypeIri) => [Pick(size, 24, 25)] + datatypeIri + value
    case BooleanLiteral(b) => [if b then 28 else 29]
    case FloatLiteral(f) => [30] + f
    case DoubleLiteral(d) => [31] + d
    case IntegerLiteral(i) => [32] + i
    case DecimalLiteral(n) => [33] + n
    case TimeLiteral(kind, value) => [TimeType(kind)] + value
    case DurationLiteral(both) => [42] + both
    case YearMonthDuration(months) => [43] + months
    case DayTimeDuration(seconds) => [44] + seconds
    case TripleTerm(s, p, o) => [49] + WriteTerm(s) + WriteTerm(p) + WriteTerm(o)
  }

  function WriteTerms(ts: seq<StoredTerm>): ByteString {
    if ts == [] then [] else WriteTerm(ts[0]) + WriteTerms(ts[1..])
  }

  /** The written bytes as a tree of type bytes and payloads. */
  function Tree(t: StoredTerm): Term {
    match t
    case TripleTerm(s, p, o) => Triple(49, Tree(s), Tree(p), Tree(o))
    case _ => Leaf(WriteTerm(t)[0], WriteTerm(t)[1..])
  }

  function Trees(ts: seq<StoredTerm>): (trees: seq<Term>)
    ensures |trees| == |ts|
  {
    if ts == [] then [] else [Tree(ts[0])] + Trees(ts[1..])
  }

  lemma {:induction false} TreeAt(ts: seq<StoredTerm>, i: nat)
    requires i < |ts|
    ensures Trees(ts)[i] == Tree(ts[i])
    decreases i
  {
    if i > 0 { TreeAt(ts[1..], i - 1); }
  }

  lemma LeafWritten(t: StoredTerm)
    requires !t.TripleTerm?
    ensures Valid(Tree(t)) && Encode(Tree(t)) == WriteTerm(t)
  {
    var w := WriteTerm(t);
    assert w == [w[0]] + w[1..];
  }

  /** What the encoder writes for a term is a term to the coprocessor. */
  lemma {:induction false} WrittenIsTerm(t: StoredTerm)
    ensures Valid(Tree(t)) && Encode(Tree(t)) == WriteTerm(t)
    decreases t
  {
    if t.TripleTerm? {
      WrittenIsTerm(t.subj);
      WrittenIsTerm(t.pred);
      WrittenIsTerm(t.obj);
    } else {
      LeafWritten(t);
    }
  }

  /** The length found for a written term is its own, whatever follows it. */
  lemma WrittenLength(t: StoredTerm, rest: ByteString)
    ensures TermLength(WriteTerm(t) + rest) == Done(|WriteTerm(t)|)
  {
    WrittenIsTerm(t);
    LengthOfEncoding(Tree(t), rest);
  }

  lemma {:induction false} WrittenAreTerms(ts: seq<StoredTerm>)
    ensures AllValid(Trees(ts)) && EncodeAll(Trees(ts)) == WriteTerms(ts)
    decreases |ts|
  {
    if ts != [] {
      WrittenAreTerms(ts[1..]);
      WrittenIsTerm(ts[0]);
      OneTermBefore(Tree(ts[0]), Trees(ts[1..]));
    }
  }

  /** In a key of written terms each is found at its place, and none past the last. */
  lemma WrittenTermFound(ts: seq<StoredTerm>, position: nat)
    ensures NthTerm(WriteTerms(ts), position)
         == if position < |ts| then Done(WriteTerm(ts[position])) else Failed(KEY_TOO_SHORT)
  {
    WrittenAreTerms(ts);
    NthTermOfWholeKey(Trees(ts), position);
    if position < |ts| {
      TreeAt(ts, position);
      WrittenIsTerm(ts[position]);
    }
  }
}
