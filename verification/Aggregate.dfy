/** COUNT, MIN and MAX over the pairs with a key prefix. */
module Aggregate {
  import opened Wrappers
  import opened Bytes
  import opened Sequences
  import opened IndexScan

  lemma {:induction false} RowsConcat(table: Byte, keyPrefix: ByteString, a: seq<Pair>, b: seq<Pair>)
    ensures Rows(table, keyPrefix, a + b) == Rows(table, keyPrefix, a) + Rows(table, keyPrefix, b)
    decreases |a|
  {
    if a == [] {
      assert a + b == b;
      assert [] + Rows(table, keyPrefix, b) == Rows(table, keyPrefix, b);
    } else {
      assert (a + b)[1..] == a[1..] + b;
      RowsConcat(table, keyPrefix, a[1..], b);
      Associate(if InTable(table, keyPrefix, a[0].0) then [a[0]] else [], Rows(table, keyPrefix, a[1..]),
                Rows(table, keyPrefix, b));
    }
  }

  lemma RowsOneMore(table: Byte, keyPrefix: ByteString, pairs: seq<Pair>, i: nat)
    requires i < |pairs|
    ensures Rows(table, keyPrefix, pairs[..i + 1])
         == Rows(table, keyPrefix, pairs[..i]) + if InTable(table, keyPrefix, pairs[i].0) then [pairs[i]] else []
  {
    assert pairs[..i + 1] == pairs[..i] + [pairs[i]];
    RowsConcat(table, keyPrefix, pairs[..i], [pairs[i]]);
  }

  /** `execute_count`. */
  method ExecuteCount(table: Byte, keyPrefix: ByteString, pairs: seq<Pair>) returns (count: nat, scannedKeys: nat)
    ensures count == scannedKeys == |Rows(table, keyPrefix, pairs)|
  {
    var fullPrefix := [table] + keyPrefix;
    count, scannedKeys := 0, 0;
    for i := 0 to |pairs|
      invariant count == scannedKeys == |Rows(table, keyPrefix, pairs[..i])|
    {
      RowsOneMore(table, keyPrefix, pairs, i);
      StartsWithBoth(table, keyPrefix, pairs[i].0);
      if !(fullPrefix <= pairs[i].0) {
        continue;
      }
      scannedKeys := scannedKeys + 1;
      count := count + 1;
    }
    assert pairs[..|pairs|] == pairs;
  }

  /** `key` is the lexicographically least key of `pairs`; absent exactly if there is none. */
  ghost predicate IsLeast(pairs: seq<Pair>, key: Option<ByteString>) {
    match key
    case None => pairs == []
    case Some(k) =>
      (exists i :: 0 <= i < |pairs| && pairs[i].0 == k) && forall i | 0 <= i < |pairs| :: !Less(pairs[i].0, k)
  }

  ghost predicate IsGreatest(pairs: seq<Pair>, key: Option<ByteString>) {
    match key
    case None => pairs == []
    case Some(k) =>
      (exists i :: 0 <= i < |pairs| && pairs[i].0 == k) && forall i | 0 <= i < |pairs| :: !Less(k, pairs[i].0)
  }

  lemma LeastOfOneMore(pairs: seq<Pair>, least: Option<ByteString>, p: Pair)
    requires IsLeast(pairs, least)
    ensures IsLeast(pairs + [p], if least.None? || Less(p.0, least.value) then Some(p.0) else least)
  {
    var more := pairs + [p];
    LessTotal(p.0, p.0);
    assert more[|pairs|] == p;
    if least.Some? {
      var j :| 0 <= j < |pairs| && pairs[j].0 == least.value;
      assert more[j].0 == least.value;
      if Less(p.0, least.value) {
        forall i | 0 <= i < |pairs| ensures !Less(pairs[i].0, p.0) {
          if Less(pairs[i].0, p.0) { LessTransitive(pairs[i].0, p.0, least.value); }
        }
      }
    }
  }

  lemma GreatestOfOneMore(pairs: seq<Pair>, greatest: Option<ByteString>, p: Pair)
    requires IsGreatest(pairs, greatest)
    ensures IsGreatest(pairs + [p], if greatest.None? || Less(greatest.value, p.0) then Some(p.0) else greatest)
  {
    var more := pairs + [p];
    LessTotal(p.0, p.0);
    assert more[|pairs|] == p;
    if greatest.Some? {
      var j :| 0 <= j < |pairs| && pairs[j].0 == greatest.value;
      assert more[j].0 == greatest.value;
      if Less(greatest.value, p.0) {
        forall i | 0 <= i < |pairs| ensures !Less(p.0, pairs[i].0) {
          if Less(p.0, pairs[i].0) { LessTransitive(greatest.value, p.0, pairs[i].0); }
        }
      }
    }
  }

  /** `execute_min_max`. */
  method ExecuteMinMax(table: Byte, keyPrefix: ByteString, pairs: seq<Pair>)
    returns (minKey: Option<ByteString>, maxKey: Option<ByteString>, scannedKeys: nat)
    ensures var found := Rows(table, keyPrefix, pairs);
            scannedKeys == |found| && IsLeast(found, minKey) && IsGreatest(found, maxKey)
  {
    var fullPrefix := [table] + keyPrefix;
    minKey, maxKey, scannedKeys := None, None, 0;
    for i := 0 to |pairs|
      invariant scannedKeys == |Rows(table, keyPrefix, pairs[..i])|
      invariant IsLeast(Rows(table, keyPrefix, pairs[..i]), minKey)
      invariant IsGreatest(Rows(table, keyPrefix, pairs[..i]), maxKey)
    {
      ghost var before := Rows(table, keyPrefix, pairs[..i]);
      RowsOneMore(table, keyPrefix, pairs, i);
      var key := pairs[i].0;
      StartsWithBoth(table, keyPrefix, key);
      if !(fullPrefix <= key) {
        assert before + [] == before;
        continue;
      }
      LeastOfOneMore(before, minKey, pairs[i]);
      GreatestOfOneMore(before, maxKey, pairs[i]);
      scannedKeys := scannedKeys + 1;
      if minKey.None? || Less(key, minKey.value) {
        minKey := Some(key);
      }
      if maxKey.None? || Less(maxKey.value, key) {
        maxKey := Some(key);
      }
    }
    assert pairs[..|pairs|] == pairs;
  }
}
