/** `ReadForWrite`: a reader that pulls from a producer which pushes chunks into a shared buffer. */
module StreamAdapter {
  import opened Wrappers
  import opened Bytes
  import opened Sequences

  /** What a call of the producer does: write a chunk and finish, fail with a message, or be called again. */
  datatype Call = Finish(chunk: ByteString) | Fail(chunk: ByteString, message: ByteString) | Continue(chunk: ByteString)

  /** The producer, call by call. It need not finish. */
  type Producer = nat -> Call

  /** The chunks that the first `n` calls write. */
  function Chunks(p: Producer, n: nat): seq<ByteString> { seq(n, i requires 0 <= i < n => p(i).chunk) }

  /** Everything owed after `n` calls: their chunks, and the message if the last of them failed. */
  function Stream(p: Producer, n: nat): ByteString { Concat(Chunks(p, n)) + Message(p, n) }

  function Message(p: Producer, n: nat): ByteString { if n > 0 && p(n - 1).Fail? then p(n - 1).message else [] }

  function Concat(chunks: seq<ByteString>): ByteString {
    if chunks == [] then [] else Concat(chunks[..|chunks| - 1]) + chunks[|chunks| - 1]
  }

  lemma StreamStep(p: Producer, n: nat)
    requires GoesOn(p, n)
    ensures Stream(p, n + 1) == Stream(p, n) + (p(n).chunk + Message(p, n + 1))
  {
    assert Chunks(p, n + 1)[..n] == Chunks(p, n);
    assert n > 0 ==> p(n - 1).Continue?;
    assert Concat(Chunks(p, n)) + [] == Concat(Chunks(p, n));
    Associate(Concat(Chunks(p, n)), p(n).chunk, Message(p, n + 1));
  }

  /** All calls up to `n` ask for the next one. */
  ghost predicate GoesOn(p: Producer, n: nat) { forall k: nat | k < n :: p(k).Continue? }

  /** The producer ends with its `n`-th call. */
  ghost predicate EndsAt(p: Producer, n: nat) { n > 0 && GoesOn(p, n - 1) && !p(n - 1).Continue? }

  /** From any call on, the producer writes something or ends; otherwise a read would wait for ever. */
  ghost predicate Productive(p: Producer) { forall k: nat :: DeliversFrom(p, k) }

  ghost predicate DeliversFrom(p: Producer, k: nat) { exists m: nat :: k <= m && Delivers(p, m) }

  ghost predicate Delivers(p: Producer, m: nat) { p(m).chunk != [] || !p(m).Continue? }

  class ReadForWrite {
    const producer: Producer
    var buffer: ByteString
    var position: nat
    /** The next call; `None` after the last one. */
    var state: Option<nat>

    ghost const initial: ByteString
    ghost var made: nat
    ghost var delivered: ByteString

    /** What has been handed out and what is in the buffer make up everything produced so far. */
    ghost predicate Valid()
      reads this
    {
      && position <= |buffer| && Productive(producer)
      && delivered + buffer[position..] == initial + Stream(producer, made)
      && (if state.Some? then state.value == made && GoesOn(producer, made) else EndsAt(producer, made))
    }

    /** The producer has ended and everything has been handed out. */
    ghost predicate Exhausted()
      reads this
    {
      state.None? && delivered == initial + Stream(producer, made)
    }

    constructor (start: ByteString, p: Producer)
      requires Productive(p)
      ensures Valid() && producer == p && initial == start && made == 0 && delivered == []
    {
      producer, buffer, position, state := p, start, 0, Some(0);
      initial, made, delivered := start, 0, [];
    }

    /** One call of the producer, writing into the emptied buffer. */
    method AddMoreData(k: nat)
      requires Valid() && position == |buffer| && state == Some(k)
      modifies this`buffer, this`position, this`state, this`made
      ensures Valid() && position == 0 && made == k + 1
      ensures state == (if producer(k).Continue? then Some(k + 1) else None)
      ensures buffer == producer(k).chunk + Message(producer, k + 1)
    {
      assert delivered + buffer[position..] == delivered;
      StreamStep(producer, k);
      Associate(initial, Stream(producer, k), producer(k).chunk + Message(producer, k + 1));
      buffer, position := [], 0;
      match producer(k) {
        case Finish(chunk) =>
          buffer, state := chunk, None;
        case Fail(chunk, message) =>
          buffer := chunk;
          buffer, state := buffer + message, None;
        case Continue(chunk) =>
          buffer, state := chunk, Some(k + 1);
      }
      made := k + 1;
      assert producer(k).chunk + [] == producer(k).chunk && buffer[0..] == buffer;
    }

    /** Refills the buffer until it has unread bytes or the producer is done. */
    method Refill() returns (exhausted: bool)
      requires Valid()
      modifies this`buffer, this`position, this`state, this`made
      ensures Valid() && made >= old(made) && (old(state).None? ==> state.None? && made == old(made))
      ensures if exhausted then Exhausted() && position == |buffer| else position < |buffer|
      ensures old(Exhausted()) ==> exhausted
    {
      assert |delivered| + (|buffer| - position) == |initial + Stream(producer, made)|;
      assert DeliversFrom(producer, made);
      ghost var m: nat :| made <= m && Delivers(producer, m);
      while position == |buffer|
        invariant Valid() && made >= old(made) && (old(state).None? ==> state.None? && made == old(made))
        invariant state.Some? && position == |buffer| ==> made <= m
        decreases if state.Some? then m + 1 - made else 0
      {
        if state.None? {
          assert delivered + buffer[position..] == delivered;
          return true;
        }
        AddMoreData(state.value);
      }
      exhausted := false;
    }

    /**
     `read`. The bytes returned are the next ones due, as many as there is room for unless the buffer is
     used up; none means the end, unless no room was given.
     */
    method Read(buf: array<Byte>) returns (n: nat)
      requires Valid()
      modifies this, buf
      ensures Valid() && n <= buf.Length && made >= old(made) && (old(state).None? ==> state.None? && made == old(made))
      ensures delivered == old(delivered) + buf[..n] && buf[n..] == old(buf[..])[n..]
      ensures n == 0 ==> buf.Length == 0 || Exhausted()
      ensures n < buf.Length ==> position == |buffer|
      ensures old(Exhausted()) ==> n == 0
    {
      var exhausted := Refill();
      if exhausted {
        assert delivered + buf[..0] == delivered;
        return 0;
      }
      n := HandOut(buf);
    }

    /** Copies unread bytes out of the buffer, as many as there is room for. */
    method HandOut(buf: array<Byte>) returns (n: nat)
      requires Valid() && position < |buffer|
      modifies this`position, this`delivered, buf
      ensures Valid() && n <= buf.Length && (n == 0 ==> buf.Length == 0) && (n < buf.Length ==> position == |buffer|)
      ensures delivered == old(delivered) + buf[..n] && buf[n..] == old(buf[..])[n..]
    {
      n := if |buffer| - position < buf.Length then |buffer| - position else buf.Length;
      var slice := buffer[position..position + n];
      CopyFromSlice(slice, buf);
      assert buf[..n] == slice;
      Advance(delivered, buffer, position, n);
      position, delivered := position + n, delivered + slice;
    }

    static lemma Advance(delivered: ByteString, buffer: ByteString, position: nat, n: nat)
      requires position + n <= |buffer|
      ensures (delivered + buffer[position..position + n]) + buffer[position + n..] == delivered + buffer[position..]
    {
      assert buffer[position..] == buffer[position..position + n] + buffer[position + n..];
      Associate(delivered, buffer[position..position + n], buffer[position + n..]);
    }

    static method CopyFromSlice(slice: ByteString, buf: array<Byte>)
      requires |slice| <= buf.Length
      modifies buf
      ensures buf[..|slice|] == slice && buf[|slice|..] == old(buf[..])[|slice|..]
    {
      forall i | 0 <= i < |slice| {
        buf[i] := slice[i];
      }
    }
  }

  /** As long as the producer goes on, more calls make for more of the stream. */
  lemma {:induction false} StreamGrows(p: Producer, m: nat, n: nat)
    requires m <= n && (m < n ==> GoesOn(p, n - 1))
    ensures Stream(p, m) <= Stream(p, n)
    decreases n
  {
    if m < n {
      StreamGrows(p, m, n - 1);
      StreamStep(p, n - 1);
      PrefixOfMore(Stream(p, m), Stream(p, n - 1), p(n - 1).chunk + Message(p, n));
    }
  }

  /** No call is made after the end. */
  lemma NoCallAfterEnd(p: Producer, made: nat, n: nat)
    requires EndsAt(p, n) && (GoesOn(p, made) || EndsAt(p, made))
    ensures made <= n && (EndsAt(p, made) ==> made == n)
  {
  }

  lemma GoesOnOrEnds(p: Producer, n: nat)
    requires GoesOn(p, n)
    ensures !EndsAt(p, n)
  {
    assert n > 0 ==> p(n - 1).Continue?;
  }

  /** What the chunks handed out so far owe to the bytes produced by `made` calls. */
  ghost predicate Conserved(chunks: seq<ByteString>, whole: ByteString, ended: bool) {
    && Concat(chunks) <= whole
    && (forall i | 0 <= i < |chunks| && chunks[i] == [] :: ended && Concat(chunks[..i]) == whole)
    && ((ended && Concat(chunks) == whole) || |Concat(chunks)| >= |chunks|)
  }

  lemma OneMoreChunk(chunks: seq<ByteString>, whole: ByteString, ended: bool, chunk: ByteString, whole': ByteString,
                     ended': bool)
    requires Conserved(chunks, whole, ended) && whole <= whole' && (ended ==> ended' && whole' == whole)
    requires Concat(chunks) + chunk <= whole' && (chunk == [] ==> ended' && Concat(chunks) == whole')
    ensures Conserved(chunks + [chunk], whole', ended')
  {
    var more := chunks + [chunk];
    assert more[..|chunks|] == chunks;
    assert Concat(chunks) + [] == Concat(chunks);
    forall i | 0 <= i < |more| && more[i] == [] ensures ended' && Concat(more[..i]) == whole' {
      assert more[..i] == chunks[..i] || i == |chunks|;
    }
  }

  /** No read returns more than there is room for. */
  predicate WithinSizes(chunks: seq<ByteString>, sizes: seq<nat>) {
    |chunks| <= |sizes| && forall i | 0 <= i < |chunks| :: |chunks[i]| <= sizes[i]
  }

  /** If the producer ends and there were enough reads, they have returned everything. */
  ghost predicate AllReturned(initial: ByteString, p: Producer, chunks: seq<ByteString>) {
    forall n: nat | EndsAt(p, n) && |chunks| >= |initial + Stream(p, n)| :: Concat(chunks) == initial + Stream(p, n)
  }

  /**
   Any reads into buffers with room: what they return, joined, is a prefix of the initial bytes and
   everything produced, for producers that end and for those that do not; an empty read comes only
   when the producer has ended and all of it has been returned; and enough reads return all of it.
   */
  method ReadMany(initial: ByteString, producer: Producer, sizes: seq<nat>)
    returns (chunks: seq<ByteString>, ghost made: nat)
    requires Productive(producer) && forall i | 0 <= i < |sizes| :: sizes[i] > 0
    ensures |chunks| == |sizes| && WithinSizes(chunks, sizes)
    ensures GoesOn(producer, made) || EndsAt(producer, made)
    ensures Conserved(chunks, initial + Stream(producer, made), EndsAt(producer, made))
    ensures AllReturned(initial, producer, chunks)
  {
    var reader := new ReadForWrite(initial, producer);
    chunks := ReadEach(reader, sizes);
    made := reader.made;
    ReadsDone(initial, producer, made, chunks, reader.state.None?);
  }

  method ReadEach(reader: ReadForWrite, sizes: seq<nat>) returns (chunks: seq<ByteString>)
    requires Progress(reader, []) && forall i | 0 <= i < |sizes| :: sizes[i] > 0
    modifies reader
    ensures Progress(reader, chunks) && |chunks| == |sizes| && WithinSizes(chunks, sizes)
  {
    chunks := [];
    for k := 0 to |sizes|
      invariant Progress(reader, chunks) && |chunks| == k && WithinSizes(chunks, sizes)
    {
      var chunk := ReadOne(reader, sizes[k], chunks);
      chunks := chunks + [chunk];
    }
  }

  lemma ReadsDone(initial: ByteString, p: Producer, made: nat, chunks: seq<ByteString>, ended: bool)
    requires if ended then EndsAt(p, made) else GoesOn(p, made)
    requires Conserved(chunks, initial + Stream(p, made), ended)
    ensures EndsAt(p, made) <==> ended
    ensures AllReturned(initial, p, chunks)
  {
    if !ended { GoesOnOrEnds(p, made); }
    forall n: nat | EndsAt(p, n) && |chunks| >= |initial + Stream(p, n)|
      ensures Concat(chunks) == initial + Stream(p, n)
    {
      NoCallAfterEnd(p, made, n);
      EnoughReads(initial, p, made, n, chunks);
    }
  }

  ghost predicate Progress(reader: ReadForWrite, chunks: seq<ByteString>)
    reads reader
  {
    && reader.Valid() && reader.delivered == Concat(chunks)
    && Conserved(chunks, reader.initial + Stream(reader.producer, reader.made), reader.state.None?)
  }

  method ReadOne(reader: ReadForWrite, size: nat, ghost chunks: seq<ByteString>) returns (chunk: ByteString)
    requires Progress(reader, chunks) && size > 0
    modifies reader
    ensures Progress(reader, chunks + [chunk]) && |chunk| <= size
  {
    var buf := new Byte[size];
    ghost var before, ended := reader.made, reader.state.None?;
    var n := reader.Read(buf);
    chunk := buf[..n];
    WholeGrows(reader.initial, reader.producer, before, reader.made);
    assert reader.delivered <= reader.delivered + reader.buffer[reader.position..];
    OneMoreChunk(chunks, reader.initial + Stream(reader.producer, before), ended, chunk,
                 reader.initial + Stream(reader.producer, reader.made), reader.state.None?);
    assert (chunks + [chunk])[..|chunks|] == chunks;
    assert chunk == [] ==> Concat(chunks) + [] == Concat(chunks);
  }

  lemma WholeGrows(initial: ByteString, p: Producer, m: nat, n: nat)
    requires m <= n && (m < n ==> GoesOn(p, n - 1))
    ensures initial + Stream(p, m) <= initial + Stream(p, n)
  {
    StreamGrows(p, m, n);
  }

  lemma EnoughReads(initial: ByteString, p: Producer, made: nat, n: nat, chunks: seq<ByteString>)
    requires made <= n && EndsAt(p, n) && (EndsAt(p, made) ==> made == n)
    requires Conserved(chunks, initial + Stream(p, made), EndsAt(p, made)) && |chunks| >= |initial + Stream(p, n)|
    ensures Concat(chunks) == initial + Stream(p, n)
  {
    WholeGrows(initial, p, made, n);
  }
}
