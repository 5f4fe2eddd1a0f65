/**
 The coprocessor's navigation of encoded keys: the byte length of a term is found without decoding
 it. A term is a type byte and a payload of fixed length, or a triple of three terms.
 */
module TermCodec {
  import opened Wrappers
  import opened Bytes
  import opened Sequences

  const EMPTY_TERM := "empty term data"
  const UNKNOWN_TYPE := "unknown term type byte"
  const KEY_TOO_SHORT := "key too short for requested term position"

  /** An encoded term as a tree. */
  datatype Term = Leaf(tag: Byte, payload: ByteString) | Triple(tag: Byte, s: Term, p: Term, o: Term)

  predicate IsTripleTag(tag: Byte) { tag == 48 || tag == 49 }

  /** Total length of a non-triple term by its type byte. */
  function FixedLength(tag: Byte): (r: Option<nat>)
    ensures r.Some? ==> 1 <= r.value && !IsTripleTag(tag)
  {
    if tag == 1 || 8 <= tag <= 10 || tag == 16 || tag == 17 || tag == 33 || tag == 44 then Some(17)
    else if 20 <= tag <= 25 || 56 <= tag <= 63 then Some(33)
    else if tag == 28 || tag == 29 then Some(1)
    else if tag == 30 then Some(5)
    else if tag == 31 || tag == 32 || tag == 43 then Some(9)
    else if 34 <= tag <= 41 then Some(19)
    else if tag == 42 then Some(25)
    else None
  }

  predicate Valid(t: Term) {
    match t
    case Leaf(tag, payload) => FixedLength(tag) == Some(1 + |payload|)
    case Triple(tag, s, p, o) => IsTripleTag(tag) && Valid(s) && Valid(p) && Valid(o)
  }

  function Encode(t: Term): (r: ByteString)
    ensures r != [] && r[0] == t.tag
  {
    match t
    case Leaf(tag, payload) => [tag] + payload
    case Triple(tag, s, p, o) => [tag] + Encode(s) + Encode(p) + Encode(o)
  }

  function EncodeAll(ts: seq<Term>): ByteString {
    if ts == [] then [] else Encode(ts[0]) + EncodeAll(ts[1..])
  }

  /** Outcome of a Rust function that returns a `Result` but can also index out of bounds. */
  datatype Outcome<T> = Done(value: T) | Failed(error: string) | Panics

  /** What `encoded_term_len` computes. It reads type bytes only; payload bytes may be missing. */
  function TermLength(data: ByteString): (r: Outcome<nat>)
    ensures r.Done? ==> data != [] && r.value >= 1
    decreases |data|
  {
    if data == [] then Failed(EMPTY_TERM)
    else if FixedLength(data[0]).Some? then Done(FixedLength(data[0]).value)
    else if IsTripleTag(data[0]) then ChildrenLength(data, 1, 3)
    else Failed(UNKNOWN_TYPE)
  }

  /** `n` more children from `offset`; slicing past the end panics. */
  function ChildrenLength(data: ByteString, offset: nat, n: nat): (r: Outcome<nat>)
    requires data != [] && 1 <= offset
    ensures r.Done? ==> r.value >= offset + n
    decreases |data|, 0, n
  {
    if n == 0 then Done(offset)
    else if offset > |data| then Panics
    else
      var child := TermLength(data[offset..]);
      if child.Done? then ChildrenLength(data, offset + child.value, n - 1) else child
  }

  /** `encoded_term_len`. */
  method EncodedTermLen(data: ByteString) returns (r: Outcome<nat>)
    ensures r == TermLength(data)
    decreases |data|
  {
    if data == [] {
      return Failed(EMPTY_TERM);
    }
    var fixed := FixedLength(data[0]);
    if fixed.Some? {
      return Done(fixed.value);
    }
    if !IsTripleTag(data[0]) {
      return Failed(UNKNOWN_TYPE);
    }
    var offset := 1;
    for i := 0 to 3
      invariant offset >= 1
      invariant TermLength(data) == ChildrenLength(data, offset, 3 - i)
    {
      if offset > |data| {
        return Panics;
      }
      var child := EncodedTermLen(data[offset..]);
      if !child.Done? {
        return child;
      }
      offset := offset + child.value;
    }
    r := Done(offset);
  }

  // --- self-delimiting ------------------------------------------------------------------------------

  lemma TripleSlices(tag: Byte, a: ByteString, b: ByteString, c: ByteString)
    ensures var data := [tag] + a + b + c;
            data[1..] == a + b + c && data[1 + |a|..] == b + c && data[1 + |a| + |b|..] == c
  {
  }

  lemma LastChild(data: ByteString, j: nat, len: nat)
    requires data != [] && 1 <= j <= |data| && TermLength(data[j..]) == Done(len)
    ensures ChildrenLength(data, j, 1) == Done(j + len)
  {
    ChildrenUnfold(data, j, 1, len);
  }

  lemma LastTwoChildren(data: ByteString, i: nat, j: nat, len: nat)
    requires data != [] && 1 <= i <= j <= |data|
    requires TermLength(data[i..]) == Done(j - i) && TermLength(data[j..]) == Done(len)
    ensures ChildrenLength(data, i, 2) == Done(j + len)
  {
    ChildrenUnfold(data, i, 2, j - i);
    LastChild(data, j, len);
  }

  lemma ThreeChildren(data: ByteString, i: nat, j: nat, len: nat)
    requires data != [] && IsTripleTag(data[0]) && 1 <= i <= j <= |data|
    requires TermLength(data[1..]) == Done(i - 1) && TermLength(data[i..]) == Done(j - i)
    requires TermLength(data[j..]) == Done(len)
    ensures TermLength(data) == Done(j + len)
  {
    ChildrenUnfold(data, 1, 3, i - 1);
    LastTwoChildren(data, i, j, len);
  }

  lemma {:induction false} TripleLength(tag: Byte, a: ByteString, b: ByteString, c: ByteString)
    requires IsTripleTag(tag)
    requires TermLength(a + b + c) == Done(|a|) && TermLength(b + c) == Done(|b|) && TermLength(c).Done?
    ensures TermLength([tag] + a + b + c) == Done(1 + |a| + |b| + TermLength(c).value)
  {
    TripleSlices(tag, a, b, c);
    ThreeChildren([tag] + a + b + c, 1 + |a|, 1 + |a| + |b|, TermLength(c).value);
  }

  /** For every term tree, and whatever bytes follow, the length found is the term's own. */
  lemma {:induction false} LengthOfEncoding(t: Term, rest: ByteString)
    requires Valid(t)
    ensures TermLength(Encode(t) + rest) == Done(|Encode(t)|)
    decreases t
  {
    match t
    case Leaf(tag, payload) =>
    case Triple(tag, s, p, o) =>
      var es, ep, eo := Encode(s), Encode(p), Encode(o);
      LengthOfEncoding(s, ep + (eo + rest));
      LengthOfEncoding(p, eo + rest);
      LengthOfEncoding(o, rest);
      Associate(es, ep, eo + rest);
      TripleLength(tag, es, ep, eo + rest);
      Associate([tag] + es + ep, eo, rest);
  }

  lemma {:induction false} ChildrenUnfold(data: ByteString, offset: nat, n: nat, len: nat)
    requires data != [] && 1 <= offset <= |data| && n > 0
    requires TermLength(data[offset..]) == Done(len)
    ensures ChildrenLength(data, offset, n) == ChildrenLength(data, offset + len, n - 1)
  {
  }

  /** No term's encoding is a proper prefix of another's. */
  lemma {:induction false} PrefixFree(a: Term, b: Term, x: ByteString, y: ByteString)
    requires Valid(a) && Valid(b) && Encode(a) + x == Encode(b) + y
    ensures Encode(a) == Encode(b) && x == y
  {
    LengthOfEncoding(a, x);
    LengthOfEncoding(b, y);
    SplitsAgree(Encode(a), x, Encode(b), y);
  }

  lemma {:induction false} TripleParts(a: Term, b: Term)
    requires Valid(a) && Valid(b) && a.Triple? && b.Triple? && Encode(a) == Encode(b)
    ensures Encode(a.s) == Encode(b.s) && Encode(a.p) == Encode(b.p) && Encode(a.o) == Encode(b.o)
  {
    Associate4([a.tag], Encode(a.s), Encode(a.p), Encode(a.o));
    Associate4([b.tag], Encode(b.s), Encode(b.p), Encode(b.o));
    var ra, rb := Encode(a.p) + Encode(a.o), Encode(b.p) + Encode(b.o);
    SplitsAgree([a.tag], Encode(a.s) + ra, [b.tag], Encode(b.s) + rb);
    PrefixFree(a.s, b.s, ra, rb);
    PrefixFree(a.p, b.p, Encode(a.o), Encode(b.o));
  }

  /** An encoding determines its term. */
  lemma {:induction false} EncodeInjective(a: Term, b: Term)
    requires Valid(a) && Valid(b) && Encode(a) == Encode(b)
    ensures a == b
    decreases a
  {
    assert a.tag == b.tag;
    match a
    case Leaf(tag, payload) =>
      SplitsAgree([tag], payload, [b.tag], b.payload);
    case Triple(tag, s, p, o) =>
      TripleParts(a, b);
      EncodeInjective(s, b.s);
      EncodeInjective(p, b.p);
      EncodeInjective(o, b.o);
  }

  // --- the converse: on arbitrary bytes --------------------------------------------------------------

  /** A fitting triple consists of three fitting children, one after the other. */
  lemma {:induction false} TripleChildren(data: ByteString) returns (o2: nat, o3: nat)
    requires data != [] && IsTripleTag(data[0]) && TermLength(data).Done? && TermLength(data).value <= |data|
    ensures 1 < o2 < o3 < TermLength(data).value
    ensures TermLength(data[1..]) == Done(o2 - 1) && TermLength(data[o2..]) == Done(o3 - o2)
    ensures TermLength(data[o3..]) == Done(TermLength(data).value - o3)
  {
    assert ChildrenLength(data, 1, 3).Done?;
    o2 := 1 + TermLength(data[1..]).value;
    assert ChildrenLength(data, 1, 3) == ChildrenLength(data, o2, 2);
    o3 := o2 + TermLength(data[o2..]).value;
    assert ChildrenLength(data, o2, 2) == ChildrenLength(data, o3, 1);
    var o4 := o3 + TermLength(data[o3..]).value;
    assert ChildrenLength(data, o3, 1) == ChildrenLength(data, o4, 0) == Done(o4);
  }

  lemma FourParts(data: ByteString, i: nat, j: nat, n: nat)
    requires 1 <= i <= j <= n <= |data|
    ensures data[..n] == [data[0]] + data[1..][..i - 1] + data[i..][..j - i] + data[j..][..n - j]
  {
    DropTake(data, 1, i);
    DropTake(data, i, j);
    DropTake(data, j, n);
    assert data[..n] == [data[0]] + data[1..i] + data[i..j] + data[j..n];
  }

  /**
   On any bytes at all: a length that fits in the data is the length of a whole term at its start.
   */
  lemma {:induction false} FittingLengthIsTerm(data: ByteString) returns (t: Term)
    requires TermLength(data).Done? && TermLength(data).value <= |data|
    ensures Valid(t) && Encode(t) == data[..TermLength(data).value]
    decreases |data|
  {
    var n := TermLength(data).value;
    if FixedLength(data[0]).Some? {
      t := Leaf(data[0], data[1..n]);
      assert data[..n] == [data[0]] + data[1..n];
      assert Valid(t) && Encode(t) == data[..n];
    } else {
      var o2, o3 := TripleChildren(data);
      var s := FittingLengthIsTerm(data[1..]);
      var p := FittingLengthIsTerm(data[o2..]);
      var o := FittingLengthIsTerm(data[o3..]);
      t := Triple(data[0], s, p, o);
      FourParts(data, o2, o3, n);
      assert Valid(t) && Encode(t) == [data[0]] + Encode(s) + Encode(p) + Encode(o);
    }
  }

  lemma {:induction false} WholeTermCharacterised(data: ByteString, n: nat)
    ensures TermLength(data) == Done(n) && n <= |data|
       <==> exists t :: Valid(t) && Encode(t) <= data && |Encode(t)| == n
  {
    if TermLength(data) == Done(n) && n <= |data| {
      var t := FittingLengthIsTerm(data);
      assert Valid(t) && Encode(t) <= data && |Encode(t)| == n;
    }
    forall t | Valid(t) && Encode(t) <= data && |Encode(t)| == n ensures TermLength(data) == Done(n) && n <= |data| {
      LengthOfEncoding(t, data[n..]);
      assert data == Encode(t) + data[n..];
    }
  }
}
