/** Facts about concatenation, stated once so that other proofs need not rediscover them. */
module Sequences {

  lemma Associate<T>(a: seq<T>, b: seq<T>, c: seq<T>)
    ensures (a + b) + c == a + (b + c)
  {
  }

  lemma Associate4<T>(a: seq<T>, b: seq<T>, c: seq<T>, d: seq<T>)
    ensures a + b + c + d == a + (b + (c + d)) == a + b + (c + d) == a + (b + c + d)
  {
  }

  lemma TakeDrop<T>(a: seq<T>, b: seq<T>)
    ensures (a + b)[..|a|] == a && (a + b)[|a|..] == b
  {
  }

  lemma DropDrop<T>(s: seq<T>, i: nat, j: nat)
    requires i + j <= |s|
    ensures s[i..][j..] == s[i + j..]
  {
  }

  lemma DropTake<T>(s: seq<T>, i: nat, j: nat)
    requires i <= j <= |s|
    ensures s[i..][..j - i] == s[i..j]
  {
  }

  lemma PrefixOfRest<T>(s: seq<T>, n: nat, t: seq<T>)
    requires n <= |s| && t <= s[n..]
    ensures s[..n] + t <= s
  {
    assert s == s[..n] + s[n..];
  }

  lemma PrefixOfMore<T>(s: seq<T>, t: seq<T>, more: seq<T>)
    requires s <= t
    ensures s <= t + more
  {
  }

  /** A prefix of a concatenation that reaches into its second part. */
  lemma PrefixAfter<T>(a: seq<T>, b: seq<T>, s: seq<T>, n: nat)
    requires s <= a + b && |s| == |a| + n
    ensures s[|a|..] == b[..n]
  {
  }

  lemma HeadAndTail<T>(s: seq<T>, first: T, others: seq<T>)
    requires |s| == 1 + |others| && s[0] == first && forall i | 0 <= i < |others| :: s[i + 1] == others[i]
    ensures s == [first] + others
  {
    forall i | 0 <= i < |s| ensures s[i] == ([first] + others)[i] {
      if i > 0 { assert s[(i - 1) + 1] == others[i - 1]; }
    }
  }

  /** Two splits of one sequence at the same place agree. */
  lemma SplitsAgree<T>(a: seq<T>, x: seq<T>, b: seq<T>, y: seq<T>)
    requires a + x == b + y && |a| == |b|
    ensures a == b && x == y
  {
    TakeDrop(a, x);
    TakeDrop(b, y);
  }

  /** What follows a given head is determined by the whole. */
  lemma TailsAgree<T>(whole: seq<T>, head: seq<T>, s: seq<T>, t: seq<T>)
    requires whole == head + s == head + t
    ensures s == t
  {
    TakeDrop(head, s);
    TakeDrop(head, t);
  }

  /** A suffix may be regrouped with the two parts before it. */
  lemma RegroupTail<T>(a: seq<T>, b: seq<T>, c: seq<T>, x: seq<T>, tail: seq<T>)
    requires b + (c + x) == tail
    ensures a + b + c + x == a + tail
  {
    Associate4(a, b, c, x);
  }

  /** The fields of a concatenation are where their lengths put them. */
  lemma FourFields<T>(a: seq<T>, b: seq<T>, c: seq<T>, d: seq<T>, rest: seq<T>)
    ensures var s, i, j, k := a + b + c + d + rest, |a|, |a| + |b|, |a| + |b| + |c|;
            s[..i] == a && s[i..j] == b && s[j..k] == c && s[k..k + |d|] == d
  {
  }
}
