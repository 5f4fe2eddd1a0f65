/** Half-open key ranges over an ascending store, and the pairs that one or several of them select. */
module Ranges {
  import opened Bytes
  import opened Sequences
  import opened IndexScan
  import opened Aggregate

  datatype KeyRange = KeyRange(lo: ByteString, hi: ByteString)

  predicate Contains(r: KeyRange, key: ByteString) { !Less(key, r.lo) && Less(key, r.hi) }

  ghost predicate Ascending(pairs: seq<Pair>) {
    forall i, j | 0 <= i < j < |pairs| :: Less(pairs[i].0, pairs[j].0)
  }

  /** Each range ends before the next ones begin. */
  ghost predicate AscendingRanges(ranges: seq<KeyRange>) {
    forall i, j | 0 <= i < j < |ranges| :: !Less(ranges[j].lo, ranges[i].hi)
  }

  function InRange(r: KeyRange, pairs: seq<Pair>): seq<Pair> {
    if pairs == [] then [] else (if Contains(r, pairs[0].0) then [pairs[0]] else []) + InRange(r, pairs[1..])
  }

  /** The ranges' pairs, range by range. */
  function Collect(pairs: seq<Pair>, ranges: seq<KeyRange>): seq<Pair> {
    if ranges == [] then [] else InRange(ranges[0], pairs) + Collect(pairs, ranges[1..])
  }

  lemma {:induction false} CollectConcat(pairs: seq<Pair>, a: seq<KeyRange>, b: seq<KeyRange>)
    ensures Collect(pairs, a + b) == Collect(pairs, a) + Collect(pairs, b)
    decreases |a|
  {
    if a == [] {
      assert a + b == b && [] + Collect(pairs, b) == Collect(pairs, b);
    } else {
      assert (a + b)[1..] == a[1..] + b;
      CollectConcat(pairs, a[1..], b);
      Associate(InRange(a[0], pairs), Collect(pairs, a[1..]), Collect(pairs, b));
    }
  }

  lemma CollectOneMore(pairs: seq<Pair>, ranges: seq<KeyRange>, i: nat)
    requires i < |ranges|
    ensures Collect(pairs, ranges[..i + 1]) == Collect(pairs, ranges[..i]) + InRange(ranges[i], pairs)
  {
    assert ranges[..i + 1] == ranges[..i] + [ranges[i]];
    CollectConcat(pairs, ranges[..i], [ranges[i]]);
    assert InRange(ranges[i], pairs) + [] == InRange(ranges[i], pairs);
  }

  /** In how many of the ranges a key lies. */
  function Hits(ranges: seq<KeyRange>, key: ByteString): nat {
    if ranges == [] then 0 else (if Contains(ranges[0], key) then 1 else 0) + Hits(ranges[1..], key)
  }

  /** The pairs that lie in some range, in store order. */
  function Covered(pairs: seq<Pair>, ranges: seq<KeyRange>): seq<Pair> {
    if pairs == [] then [] else (if Hits(ranges, pairs[0].0) > 0 then [pairs[0]] else []) + Covered(pairs[1..], ranges)
  }

  lemma {:induction false} HitsPositive(ranges: seq<KeyRange>, key: ByteString)
    ensures Hits(ranges, key) > 0 <==> exists i :: 0 <= i < |ranges| && Contains(ranges[i], key)
    decreases |ranges|
  {
    if ranges != [] {
      HitsPositive(ranges[1..], key);
      if i :| 0 <= i < |ranges[1..]| && Contains(ranges[1..][i], key) {
        assert Contains(ranges[i + 1], key);
      }
      if i :| 0 < i < |ranges| && Contains(ranges[i], key) {
        assert Contains(ranges[1..][i - 1], key);
      }
    }
  }

  // --- filters commute with the prefix filter -------------------------------------------------------------

  lemma {:induction false} InRangeCommutes(table: Byte, keyPrefix: ByteString, r: KeyRange, pairs: seq<Pair>)
    ensures Rows(table, keyPrefix, InRange(r, pairs)) == InRange(r, Rows(table, keyPrefix, pairs))
    decreases |pairs|
  {
    if pairs != [] {
      InRangeCommutes(table, keyPrefix, r, pairs[1..]);
      var head, tail := [pairs[0]], InRange(r, pairs[1..]);
      if Contains(r, pairs[0].0) {
        assert (head + tail)[1..] == tail;
      } else {
        assert [] + tail == tail;
      }
      var kept := Rows(table, keyPrefix, pairs[1..]);
      if InTable(table, keyPrefix, pairs[0].0) {
        assert (head + kept)[1..] == kept;
      } else {
        assert [] + kept == kept;
      }
    }
  }

  lemma {:induction false} CollectCommutes(table: Byte, keyPrefix: ByteString, pairs: seq<Pair>, ranges: seq<KeyRange>)
    ensures Rows(table, keyPrefix, Collect(pairs, ranges)) == Collect(Rows(table, keyPrefix, pairs), ranges)
    decreases |ranges|
  {
    if ranges != [] {
      CollectCommutes(table, keyPrefix, pairs, ranges[1..]);
      InRangeCommutes(table, keyPrefix, ranges[0], pairs);
      RowsConcat(table, keyPrefix, InRange(ranges[0], pairs), Collect(pairs, ranges[1..]));
    }
  }

  lemma {:induction false} CoveredCommutes(table: Byte, keyPrefix: ByteString, pairs: seq<Pair>, ranges: seq<KeyRange>)
    ensures Rows(table, keyPrefix, Covered(pairs, ranges)) == Covered(Rows(table, keyPrefix, pairs), ranges)
    decreases |pairs|
  {
    if pairs != [] {
      CoveredCommutes(table, keyPrefix, pairs[1..], ranges);
      var head, tail := [pairs[0]], Covered(pairs[1..], ranges);
      if Hits(ranges, pairs[0].0) > 0 {
        assert (head + tail)[1..] == tail;
      } else {
        assert [] + tail == tail;
      }
      var kept := Rows(table, keyPrefix, pairs[1..]);
      if InTable(table, keyPrefix, pairs[0].0) {
        assert (head + kept)[1..] == kept;
      } else {
        assert [] + kept == kept;
      }
    }
  }

  // --- members --------------------------------------------------------------------------------------------

  lemma {:induction false} RowsMembers(table: Byte, keyPrefix: ByteString, pairs: seq<Pair>, p: Pair)
    ensures p in Rows(table, keyPrefix, pairs) <==> p in pairs && InTable(table, keyPrefix, p.0)
    decreases |pairs|
  {
    if pairs != [] {
      RowsMembers(table, keyPrefix, pairs[1..], p);
      assert pairs == [pairs[0]] + pairs[1..];
    }
  }

  lemma {:induction false} InRangeMembers(r: KeyRange, pairs: seq<Pair>, p: Pair)
    ensures p in InRange(r, pairs) <==> p in pairs && Contains(r, p.0)
    decreases |pairs|
  {
    if pairs != [] {
      InRangeMembers(r, pairs[1..], p);
      assert pairs == [pairs[0]] + pairs[1..];
    }
  }

  lemma {:induction false} CollectMembers(pairs: seq<Pair>, ranges: seq<KeyRange>, p: Pair)
    ensures p in Collect(pairs, ranges) <==> p in pairs && Hits(ranges, p.0) > 0
    decreases |ranges|
  {
    if ranges != [] {
      InRangeMembers(ranges[0], pairs, p);
      CollectMembers(pairs, ranges[1..], p);
    }
  }

  lemma {:induction false} CoveredMembers(pairs: seq<Pair>, ranges: seq<KeyRange>, p: Pair)
    ensures p in Covered(pairs, ranges) <==> p in pairs && Hits(ranges, p.0) > 0
    decreases |pairs|
  {
    if pairs != [] {
      CoveredMembers(pairs[1..], ranges, p);
      assert pairs == [pairs[0]] + pairs[1..];
    }
  }

  // --- order, multiplicity and number -----------------------------------------------------------------------

  lemma {:induction false} RowsAscending(table: Byte, keyPrefix: ByteString, pairs: seq<Pair>)
    requires Ascending(pairs)
    ensures Ascending(Rows(table, keyPrefix, pairs))
    decreases |pairs|
  {
    if pairs != [] {
      RowsAscending(table, keyPrefix, pairs[1..]);
      var others := Rows(table, keyPrefix, pairs[1..]);
      forall i | 0 <= i < |others| ensures Less(pairs[0].0, others[i].0) {
        RowsMembers(table, keyPrefix, pairs[1..], others[i]);
        var j :| 0 <= j < |pairs[1..]| && pairs[1..][j] == others[i];
        assert pairs[j + 1] == others[i];
      }
    }
  }

  /** Over an ascending store, ascending ranges collect the covered pairs in store order. */
  lemma {:induction false} CollectAscending(pairs: seq<Pair>, ranges: seq<KeyRange>)
    requires Ascending(pairs) && AscendingRanges(ranges)
    ensures Collect(pairs, ranges) == Covered(pairs, ranges)
    decreases |ranges|
  {
    if ranges == [] {
      NothingCovered(pairs);
    } else {
      assert forall i | 0 <= i < |ranges[1..]| :: ranges[1..][i] == ranges[i + 1];
      CollectAscending(pairs, ranges[1..]);
      CoveredSplits(pairs, ranges);
    }
  }

  lemma {:induction false} NothingCovered(pairs: seq<Pair>)
    ensures Covered(pairs, []) == []
    decreases |pairs|
  {
    if pairs != [] { NothingCovered(pairs[1..]); }
  }

  /** Nothing before the start of a range or past its end is in it. */
  lemma {:induction false} NothingInRange(r: KeyRange, pairs: seq<Pair>)
    requires forall i | 0 <= i < |pairs| :: !Contains(r, pairs[i].0)
    ensures InRange(r, pairs) == []
    decreases |pairs|
  {
    if pairs != [] { NothingInRange(r, pairs[1..]); }
  }

  lemma {:induction false} CoveredSplits(pairs: seq<Pair>, ranges: seq<KeyRange>)
    requires ranges != [] && Ascending(pairs) && AscendingRanges(ranges)
    ensures Covered(pairs, ranges) == InRange(ranges[0], pairs) + Covered(pairs, ranges[1..])
    decreases |pairs|
  {
    if pairs != [] {
      var r, rest, key := ranges[0], ranges[1..], pairs[0].0;
      CoveredSplits(pairs[1..], ranges);
      var a, b := InRange(r, pairs[1..]), Covered(pairs[1..], rest);
      if Hits(rest, key) > 0 {
        PastFirst(pairs, ranges);
        assert [] + ([pairs[0]] + b) == [pairs[0]] + ([] + b);
      } else if Contains(r, key) {
        Associate([pairs[0]], a, b);
        assert [] + b == b;
      } else {
        assert [] + a == a && [] + b == b && [] + (a + b) == a + b;
      }
    }
  }

  /** From a key that lies in a later range on, nothing is in the first one. */
  lemma PastFirst(pairs: seq<Pair>, ranges: seq<KeyRange>)
    requires pairs != [] && ranges != [] && Ascending(pairs) && AscendingRanges(ranges)
    requires Hits(ranges[1..], pairs[0].0) > 0
    ensures !Contains(ranges[0], pairs[0].0) && InRange(ranges[0], pairs[1..]) == []
  {
    var r, rest, key := ranges[0], ranges[1..], pairs[0].0;
    HitsPositive(rest, key);
    var i :| 0 <= i < |rest| && Contains(rest[i], key);
    assert rest[i] == ranges[i + 1];
    forall j | 0 <= j < |pairs| ensures !Contains(r, pairs[j].0) {
      PastRange(r, rest[i].lo, key, pairs[j].0);
    }
    assert forall j | 0 <= j < |pairs[1..]| :: pairs[1..][j] == pairs[j + 1];
    NothingInRange(r, pairs[1..]);
  }

  /** A key at or after the start of a later range is past the end of an earlier one. */
  lemma PastRange(r: KeyRange, later: ByteString, key: ByteString, next: ByteString)
    requires !Less(later, r.hi) && !Less(key, later) && (next == key || Less(key, next))
    ensures !Contains(r, next)
  {
    if Less(next, r.hi) {
      LessTotal(later, key);
      LessTotal(r.hi, later);
      if Less(key, next) { LessTransitive(key, next, r.hi); }
      if Less(later, key) { LessTransitive(later, key, r.hi); }
    }
  }

  /** Ranges no stored key lies in two of collect every covered pair once. */
  lemma {:induction false} CollectDisjoint(pairs: seq<Pair>, ranges: seq<KeyRange>)
    requires forall i | 0 <= i < |pairs| :: Hits(ranges, pairs[i].0) <= 1
    ensures multiset(Collect(pairs, ranges)) == multiset(Covered(pairs, ranges))
    decreases |ranges|
  {
    if ranges == [] {
      NothingCovered(pairs);
    } else {
      CollectDisjoint(pairs, ranges[1..]);
      CoveredSplitsDisjoint(pairs, ranges);
    }
  }

  lemma {:induction false} CoveredSplitsDisjoint(pairs: seq<Pair>, ranges: seq<KeyRange>)
    requires ranges != [] && forall i | 0 <= i < |pairs| :: Hits(ranges, pairs[i].0) <= 1
    ensures multiset(Covered(pairs, ranges))
         == multiset(InRange(ranges[0], pairs)) + multiset(Covered(pairs, ranges[1..]))
    decreases |pairs|
  {
    if pairs != [] {
      assert forall i | 0 <= i < |pairs[1..]| :: pairs[1..][i] == pairs[i + 1];
      CoveredSplitsDisjoint(pairs[1..], ranges);
    }
  }

  /** The number of range memberships of the pairs. */
  function TotalHits(pairs: seq<Pair>, ranges: seq<KeyRange>): nat {
    if pairs == [] then 0 else Hits(ranges, pairs[0].0) + TotalHits(pairs[1..], ranges)
  }

  lemma {:induction false} CollectSize(pairs: seq<Pair>, ranges: seq<KeyRange>)
    ensures |Collect(pairs, ranges)| == TotalHits(pairs, ranges)
    decreases |ranges|
  {
    if ranges == [] {
      NoHits(pairs);
    } else {
      CollectSize(pairs, ranges[1..]);
      TotalHitsSplits(pairs, ranges);
    }
  }

  lemma {:induction false} NoHits(pairs: seq<Pair>)
    ensures TotalHits(pairs, []) == 0
    decreases |pairs|
  {
    if pairs != [] { NoHits(pairs[1..]); }
  }

  lemma {:induction false} TotalHitsSplits(pairs: seq<Pair>, ranges: seq<KeyRange>)
    requires ranges != []
    ensures TotalHits(pairs, ranges) == |InRange(ranges[0], pairs)| + TotalHits(pairs, ranges[1..])
    decreases |pairs|
  {
    if pairs != [] { TotalHitsSplits(pairs[1..], ranges); }
  }

  /** As many memberships as covered pairs exactly when no pair has two. */
  lemma {:induction false} CoveredSize(pairs: seq<Pair>, ranges: seq<KeyRange>)
    ensures |Covered(pairs, ranges)| <= TotalHits(pairs, ranges)
    ensures |Covered(pairs, ranges)| == TotalHits(pairs, ranges)
       <==> forall i | 0 <= i < |pairs| :: Hits(ranges, pairs[i].0) <= 1
    decreases |pairs|
  {
    if pairs != [] {
      CoveredSize(pairs[1..], ranges);
      assert pairs == [pairs[0]] + pairs[1..];
      assert forall i | 0 <= i < |pairs[1..]| :: pairs[1..][i] == pairs[i + 1];
      if forall i | 0 <= i < |pairs[1..]| :: Hits(ranges, pairs[1..][i].0) <= 1 {
        forall i | 0 < i < |pairs| ensures Hits(ranges, pairs[i].0) <= 1 { assert pairs[i] == pairs[1..][i - 1]; }
      }
    }
  }
}
