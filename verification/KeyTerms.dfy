/** Picking terms out of a key (without its table byte), by walking over the terms before them. */
module KeyTerms {
  import opened Bytes
  import opened Sequences
  import opened TermCodec

  /** What `extract_term_bytes` computes: its bounds check precedes each step, not the final slice. */
  function NthTerm(key: ByteString, position: nat): Outcome<ByteString>
    decreases position
  {
    if key == [] then Failed(KEY_TOO_SHORT)
    else
      match TermLength(key)
      case Failed(e) => Failed(e)
      case Panics => Panics
      case Done(len) =>
        if position == 0 then (if len <= |key| then Done(key[..len]) else Panics)
        else if len >= |key| then Failed(KEY_TOO_SHORT)
        else NthTerm(key[len..], position - 1)
  }

  /** After `i` terms, what is wanted is the term that many places on from `offset`. */
  ghost predicate Remaining(key: ByteString, position: nat, offset: nat, i: nat) {
    && i <= position
    && NthTerm(key, position)
       == if offset < |key| then NthTerm(key[offset..], position - i) else Failed(KEY_TOO_SHORT)
  }

  lemma AllRemaining(key: ByteString, position: nat)
    ensures Remaining(key, position, 0, 0)
  {
    assert key[0..] == key;
  }

  lemma RemainingNext(key: ByteString, position: nat, offset: nat, i: nat, n: nat)
    requires Remaining(key, position, offset, i) && offset < |key| && i < position
    requires TermLength(key[offset..]) == Done(n)
    ensures Remaining(key, position, offset + n, i + 1)
  {
    if offset + n < |key| { DropDrop(key, offset, n); }
  }

  lemma RemainingFirst(key: ByteString, position: nat, offset: nat, n: nat)
    requires Remaining(key, position, offset, position) && offset < |key|
    requires TermLength(key[offset..]) == Done(n)
    ensures NthTerm(key, position) == if offset + n <= |key| then Done(key[offset..offset + n]) else Panics
  {
    FirstTerm(key[offset..], n);
    if offset + n <= |key| { DropTake(key, offset, offset + n); }
  }

  lemma FirstTerm(key: ByteString, n: nat)
    requires TermLength(key) == Done(n)
    ensures NthTerm(key, 0) == if n <= |key| then Done(key[..n]) else Panics
  {
  }

  /** `extract_term_bytes`. */
  method ExtractTermBytes(key: ByteString, position: nat) returns (r: Outcome<ByteString>)
    ensures r == NthTerm(key, position)
  {
    var offset := 0;
    var i := 0;
    AllRemaining(key, position);
    while i <= position
      invariant 0 <= i <= position && Remaining(key, position, offset, i)
      decreases position - i
    {
      if offset >= |key| {
        return Failed(KEY_TOO_SHORT);
      }
      var len := EncodedTermLen(key[offset..]);
      match len {
        case Failed(e) => return Failed(e);
        case Panics => return Panics;
        case Done(n) =>
          if i == position {
            RemainingFirst(key, position, offset, n);
            if offset + n > |key| {
              return Panics;
            }
            return Done(key[offset..offset + n]);
          }
          RemainingNext(key, position, offset, i, n);
          offset := offset + n;
      }
      i := i + 1;
    }
  }

  /** What `extract_concat_term_bytes` computes. */
  function ConcatTerms(key: ByteString, positions: seq<nat>): Outcome<ByteString> {
    if positions == [] then Done([])
    else
      match NthTerm(key, positions[0])
      case Done(first) =>
        (match ConcatTerms(key, positions[1..])
         case Done(others) => Done(first + others)
         case other => other)
      case other => other
  }

  /** `extract_concat_term_bytes`. */
  method ExtractConcatTermBytes(key: ByteString, positions: seq<nat>) returns (r: Outcome<ByteString>)
    ensures r == ConcatTerms(key, positions)
  {
    var result: ByteString := [];
    assert positions[0..] == positions;
    if ConcatTerms(key, positions).Done? {
      assert [] + ConcatTerms(key, positions).value == ConcatTerms(key, positions).value;
    }
    for i := 0 to |positions|
      invariant ConcatTerms(key, positions)
             == (match ConcatTerms(key, positions[i..]) case Done(others) => Done(result + others) case other => other)
    {
      assert positions[i..][1..] == positions[i + 1..];
      var term := ExtractTermBytes(key, positions[i]);
      match term {
        case Done(bytes) =>
          ghost var before := result;
          if ConcatTerms(key, positions[i + 1..]).Done? {
            Associate(before, bytes, ConcatTerms(key, positions[i + 1..]).value);
          }
          result := result + bytes;
        case other => return other;
      }
    }
    assert result + [] == result;
    r := Done(result);
  }

  // --- keys made of whole terms --------------------------------------------------------------------------

  ghost predicate AllValid(ts: seq<Term>) { forall i | 0 <= i < |ts| :: Valid(ts[i]) }

  /** The i-th term of a key of whole terms, and the error exactly past the last one. */
  lemma {:induction false} NthTermOfWholeKey(ts: seq<Term>, position: nat)
    requires AllValid(ts)
    ensures NthTerm(EncodeAll(ts), position)
         == if position < |ts| then Done(Encode(ts[position])) else Failed(KEY_TOO_SHORT)
    decreases position
  {
    if ts != [] {
      FirstOfKey(ts, position);
      if position > 0 {
        NthTermOfWholeKey(ts[1..], position - 1);
      }
    }
  }

  lemma FirstOfKey(ts: seq<Term>, position: nat)
    requires ts != [] && AllValid(ts)
    ensures NthTerm(EncodeAll(ts), position)
         == if position == 0 then Done(Encode(ts[0])) else NthTerm(EncodeAll(ts[1..]), position - 1)
  {
    StepOverFirst(ts[0], EncodeAll(ts[1..]), position);
  }

  lemma {:induction false} StepOverFirst(t: Term, rest: ByteString, position: nat)
    requires Valid(t)
    ensures NthTerm(Encode(t) + rest, position)
         == if position == 0 then Done(Encode(t)) else NthTerm(rest, position - 1)
  {
    LengthOfEncoding(t, rest);
    TakeDrop(Encode(t), rest);
  }

  lemma FirstOfPrefix(ts: seq<Term>, position: nat, rest: ByteString)
    requires ts != [] && AllValid(ts)
    ensures NthTerm(EncodeAll(ts) + rest, position)
         == if position == 0 then Done(Encode(ts[0])) else NthTerm(EncodeAll(ts[1..]) + rest, position - 1)
  {
    Associate(Encode(ts[0]), EncodeAll(ts[1..]), rest);
    StepOverFirst(ts[0], EncodeAll(ts[1..]) + rest, position);
  }

  /** Terms that are whole are found whatever follows them in the key. */
  lemma {:induction false} NthTermOfPrefix(ts: seq<Term>, position: nat, rest: ByteString)
    requires AllValid(ts)
    ensures position < |ts| ==> NthTerm(EncodeAll(ts) + rest, position) == Done(Encode(ts[position]))
    decreases position
  {
    if position < |ts| {
      FirstOfPrefix(ts, position, rest);
      if position > 0 {
        NthTermOfPrefix(ts[1..], position - 1, rest);
      }
    }
  }

  /** The chosen terms, joined, or an error if one of the positions is past the end. */
  lemma {:induction false} ConcatTermsOfWholeKey(ts: seq<Term>, positions: seq<nat>)
    requires AllValid(ts)
    ensures ConcatTerms(EncodeAll(ts), positions)
         == if forall i | 0 <= i < |positions| :: positions[i] < |ts|
            then Done(EncodeAll(Select(ts, positions))) else Failed(KEY_TOO_SHORT)
    decreases |positions|
  {
    if positions != [] {
      NthTermOfWholeKey(ts, positions[0]);
      ConcatTermsOfWholeKey(ts, positions[1..]);
      assert (forall i | 0 <= i < |positions| :: positions[i] < |ts|)
        <==> positions[0] < |ts| && forall i | 0 <= i < |positions[1..]| :: positions[1..][i] < |ts|;
      if forall i | 0 <= i < |positions| :: positions[i] < |ts| {
        assert Select(ts, positions) == [ts[positions[0]]] + Select(ts, positions[1..]);
      }
    }
  }

  function Select(ts: seq<Term>, positions: seq<nat>): seq<Term>
    requires forall i | 0 <= i < |positions| :: positions[i] < |ts|
  {
    seq(|positions|, i requires 0 <= i < |positions| => ts[positions[i]])
  }

  // --- arbitrary keys --------------------------------------------------------------------------------------

  /** On any bytes: a term is returned exactly when the key starts with that many whole terms. */
  lemma {:induction false} NthTermCharacterised(key: ByteString, position: nat, bytes: ByteString)
    ensures NthTerm(key, position) == Done(bytes)
       <==> exists ts :: AllValid(ts) && |ts| == position + 1 && EncodeAll(ts) <= key && bytes == Encode(ts[position])
  {
    forall ts | AllValid(ts) && |ts| == position + 1 && EncodeAll(ts) <= key && bytes == Encode(ts[position])
      ensures NthTerm(key, position) == Done(bytes)
    {
      NthTermOfPrefix(ts, position, key[|EncodeAll(ts)|..]);
      assert key == EncodeAll(ts) + key[|EncodeAll(ts)|..];
    }
    if NthTerm(key, position) == Done(bytes) {
      var ts := TermsBefore(key, position);
      assert AllValid(ts) && |ts| == position + 1 && EncodeAll(ts) <= key && bytes == Encode(ts[position]);
    }
  }

  lemma {:induction false} TermsBefore(key: ByteString, position: nat) returns (ts: seq<Term>)
    requires NthTerm(key, position).Done?
    ensures AllValid(ts) && |ts| == position + 1 && EncodeAll(ts) <= key
    ensures NthTerm(key, position) == Done(Encode(ts[position]))
    decreases position
  {
    var t := FittingLengthIsTerm(key);
    var n := TermLength(key).value;
    var others := [];
    if position > 0 {
      others := TermsBefore(key[n..], position - 1);
    }
    ts := [t] + others;
    OneTermBefore(t, others);
    PrefixOfRest(key, n, EncodeAll(others));
  }

  lemma OneTermBefore(t: Term, others: seq<Term>)
    requires Valid(t) && AllValid(others)
    ensures AllValid([t] + others) && EncodeAll([t] + others) == Encode(t) + EncodeAll(others)
  {
    assert ([t] + others)[1..] == others;
  }
}
