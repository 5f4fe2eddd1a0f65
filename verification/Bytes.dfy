/** Bytes, byte strings and fixed-width big-endian integers. */
module Bytes {

  type Byte = b: int | 0 <= b < 256

  type ByteString = seq<Byte>

  /** A stored key and its value. */
  type Pair = (ByteString, ByteString)

  /** 256 to the power `width`. */
  function Range(width: nat): (r: nat)
    ensures r > 0
  {
    if width == 0 then 1 else 256 * Range(width - 1)
  }

  /** The low `width` bytes of `n`, most significant first: an `as` cast followed by `to_be_bytes`. */
  function ToBe(n: nat, width: nat): (s: ByteString)
    ensures |s| == width
    decreases width
  {
    if width == 0 then [] else ToBe(n / 256, width - 1) + [n % 256]
  }

  function FromBe(s: ByteString): nat {
    if s == [] then 0 else FromBe(s[..|s| - 1]) * 256 + s[|s| - 1]
  }

  lemma Widths()
    ensures Range(1) == 0x100 && Range(2) == 0x1_0000 && Range(4) == 0x1_0000_0000
    ensures Range(8) == 0x1_0000_0000_0000_0000
  {
    assert Range(3) == 0x100_0000;
    assert Range(5) == 0x100_0000_0000;
    assert Range(6) == 0x1_0000_0000_0000;
    assert Range(7) == 0x100_0000_0000_0000;
  }

  lemma SplitMod(n: nat, p: nat)
    requires p > 0
    ensures (n / 256 % p) * 256 + n % 256 == n % (256 * p)
  {
    var a, b := n / 256, n % 256;
    var q, r := a / p, a % p;
    assert n == (q * p + r) * 256 + b == q * (256 * p) + (256 * r + b);
    UniqueMod(n, 256 * p, q, 256 * r + b);
  }

  lemma UniqueMod(n: nat, m: nat, q: nat, r: nat)
    requires m > 0 && r < m && n == q * m + r
    ensures n % m == r
  {
    var q', r' := n / m, n % m;
    var d := q' - q;
    assert d * m == r - r' by {
      assert d * m == q' * m - q * m;
      assert n == q' * m + r';
    }
    if d >= 1 {
      Multiple(d, m);
    } else if d <= -1 {
      Multiple(-d, m);
    }
  }

  lemma Multiple(d: int, m: nat)
    requires d >= 1
    ensures d * m >= m
  {
    assert d * m == (d - 1) * m + m;
  }

  /** Writing then reading truncates to the field's width; it is exact for values that fit. */
  lemma {:induction false} FromToBe(n: nat, width: nat)
    ensures FromBe(ToBe(n, width)) == n % Range(width)
    ensures n < Range(width) ==> FromBe(ToBe(n, width)) == n
    decreases width
  {
    if width > 0 {
      FromToBe(n / 256, width - 1);
      SplitMod(n, Range(width - 1));
    }
  }

  lemma LastDigit(n: nat, b: Byte)
    ensures (n * 256 + b) / 256 == n && (n * 256 + b) % 256 == b
  {
  }

  lemma OneMoreDigit(n: nat, b: Byte, width: nat)
    requires n < Range(width)
    ensures n * 256 + b < Range(width + 1) && ToBe(n * 256 + b, width + 1) == ToBe(n, width) + [b]
  {
    LastDigit(n, b);
  }

  /** Reading then writing gives the bytes back. */
  lemma {:induction false} ToFromBe(s: ByteString)
    ensures FromBe(s) < Range(|s|) && ToBe(FromBe(s), |s|) == s
    decreases |s|
  {
    if s != [] {
      var rest, last := s[..|s| - 1], s[|s| - 1];
      ToFromBe(rest);
      OneMoreDigit(FromBe(rest), last, |rest|);
      assert s == rest + [last];
    }
  }

  /** The first byte counts most. */
  lemma {:induction false} MostSignificantFirst(b: Byte, s: ByteString)
    ensures FromBe([b] + s) == b * Range(|s|) + FromBe(s)
    decreases |s|
  {
    var all := [b] + s;
    if s == [] {
      assert all[..0] == [] && FromBe([]) == 0;
    } else {
      var n := |s| - 1;
      assert all[..|s|] == [b] + s[..n] && all[|s|] == s[n];
      MostSignificantFirst(b, s[..n]);
      assert (b * Range(n)) * 256 == b * (256 * Range(n));
    }
  }

  /** Lexicographic order on byte strings, as Rust compares slices. */
  predicate Less(a: ByteString, b: ByteString) {
    if b == [] then false
    else if a == [] then true
    else a[0] < b[0] || (a[0] == b[0] && Less(a[1..], b[1..]))
  }

  /** The strings agree up to `k`, where the first one ends or has the smaller byte. */
  predicate FirstDifference(a: ByteString, b: ByteString, k: nat) {
    k <= |a| && k < |b| && a[..k] == b[..k] && (k == |a| || a[k] < b[k])
  }

  lemma {:induction false} LessExactly(a: ByteString, b: ByteString)
    ensures Less(a, b) <==> exists k: nat :: FirstDifference(a, b, k)
    decreases |a|
  {
    if a == [] || b == [] || a[0] < b[0] {
      assert b != [] ==> FirstDifference(a, b, 0);
    } else {
      LessExactly(a[1..], b[1..]);
      if k: nat :| FirstDifference(a[1..], b[1..], k) {
        LaterDifference(a, b, k + 1);
      }
      if k: nat :| FirstDifference(a, b, k) {
        LaterDifference(a, b, k);
      }
    }
  }

  lemma LaterDifference(a: ByteString, b: ByteString, k: nat)
    requires a != [] && b != [] && a[0] >= b[0]
    ensures FirstDifference(a, b, k) <==> a[0] == b[0] && k > 0 && FirstDifference(a[1..], b[1..], k - 1)
  {
    if 0 < k <= |a| && k < |b| {
      FirstAndOthers(a, k);
      FirstAndOthers(b, k);
    }
  }

  lemma FirstAndOthers(s: ByteString, k: nat)
    requires 0 < k <= |s|
    ensures s[..k] == [s[0]] + s[1..][..k - 1] && s[..k][1..] == s[1..][..k - 1]
  {
  }

  lemma {:induction false} LessTotal(a: ByteString, b: ByteString)
    ensures Less(a, b) || a == b || Less(b, a)
    ensures !(Less(a, b) && Less(b, a)) && !Less(a, a)
    decreases |a|
  {
    if a != [] {
      LessTotal(a[1..], a[1..]);
      if b != [] {
        LessTotal(a[1..], b[1..]);
        if a[0] == b[0] && a[1..] == b[1..] {
          assert a == [a[0]] + a[1..] == b;
        }
      }
    }
  }

  lemma {:induction false} LessTransitive(a: ByteString, b: ByteString, c: ByteString)
    requires Less(a, b) && Less(b, c)
    ensures Less(a, c)
    decreases |a|
  {
    if a != [] && a[0] == b[0] == c[0] {
      LessTransitive(a[1..], b[1..], c[1..]);
    }
  }
}
