/** Sequence vocabulary shared by the model: reversal, concatenation of a
    sequence of sequences, total length, order-preserving subsequences, and the
    first occurrence of an element. */
module Seqs {

  /** The sequence read back to front. */
  function Reverse<T>(s: seq<T>): (r: seq<T>)
    ensures |r| == |s|
    ensures forall k :: 0 <= k < |s| ==> r[k] == s[|s| - 1 - k]
  {
    if |s| == 0 then [] else Reverse(s[1..]) + [s[0]]
  }

  /** All the inner sequences joined, first to last. */
  function Concat<T>(ss: seq<seq<T>>): seq<T>
  {
    if |ss| == 0 then [] else ss[0] + Concat(ss[1..])
  }

  /** The sum of the lengths of the inner sequences. */
  function TotalLength<T>(ss: seq<seq<T>>): nat
  {
    if |ss| == 0 then 0 else |ss[0]| + TotalLength(ss[1..])
  }

  /** `a` can be obtained from `b` by deleting elements, keeping the order of the rest. */
  predicate IsSubsequence<T(==)>(a: seq<T>, b: seq<T>)
    decreases |b|
  {
    if |a| == 0 then true
    else if |b| == 0 then false
    else (a[0] == b[0] && IsSubsequence(a[1..], b[1..])) || IsSubsequence(a, b[1..])
  }

  /** Appending one more sequence at the end of a concatenation. */
  lemma {:induction false} ConcatAppend<T>(ss: seq<seq<T>>, s: seq<T>)
    ensures Concat(ss + [s]) == Concat(ss) + s
    decreases |ss|
  {
    if |ss| == 0 {
      assert ss + [s] == [s];
    } else {
      assert (ss + [s])[1..] == ss[1..] + [s];
      ConcatAppend(ss[1..], s);
    }
  }

  /** The length of a concatenation is the total length of its parts. */
  lemma {:induction false} ConcatLength<T>(ss: seq<seq<T>>)
    ensures |Concat(ss)| == TotalLength(ss)
    decreases |ss|
  {
    if |ss| > 0 {
      ConcatLength(ss[1..]);
    }
  }

  /** Total length does not depend on the order of the parts: reversal keeps it. */
  lemma {:induction false} TotalLengthReverse<T>(ss: seq<seq<T>>)
    ensures TotalLength(Reverse(ss)) == TotalLength(ss)
    decreases |ss|
  {
    if |ss| > 0 {
      TotalLengthReverse(ss[1..]);
      TotalLengthAppend(Reverse(ss[1..]), ss[0]);
    }
  }

  /** Appending one part adds its length to the total. */
  lemma {:induction false} TotalLengthAppend<T>(ss: seq<seq<T>>, s: seq<T>)
    ensures TotalLength(ss + [s]) == TotalLength(ss) + |s|
    decreases |ss|
  {
    if |ss| == 0 {
      assert ss + [s] == [s];
    } else {
      assert (ss + [s])[1..] == ss[1..] + [s];
      TotalLengthAppend(ss[1..], s);
    }
  }

  /** An element is in a concatenation exactly when it is in one of the parts. */
  lemma {:induction false} InConcat<T>(ss: seq<seq<T>>, x: T)
    ensures x in Concat(ss) <==> exists k :: 0 <= k < |ss| && x in ss[k]
    decreases |ss|
  {
    if |ss| > 0 {
      InConcat(ss[1..], x);
      if x in Concat(ss[1..]) {
        var k :| 0 <= k < |ss[1..]| && x in ss[1..][k];
        assert x in ss[k + 1];
      }
      if exists k :: 0 <= k < |ss| && x in ss[k] {
        var k :| 0 <= k < |ss| && x in ss[k];
        if k > 0 {
          assert x in ss[1..][k - 1];
        }
      }
    }
  }

  /** The position of the first `x` in `s`, or `|s|` when there is none. */
  function FirstIndex<T(==)>(s: seq<T>, x: T): (n: nat)
    ensures n <= |s|
    ensures x !in s[..n]
    ensures n < |s| ==> s[n] == x
  {
    if |s| == 0 || s[0] == x then 0
    else
      var n := 1 + FirstIndex(s[1..], x);
      assert s[..n] == [s[0]] + s[1..][..n - 1];
      n
  }

  /** Cutting at the first `x`: without an `x` the prefix is everything;
      otherwise `s` is the prefix, the `x`, and the rest. */
  lemma SplitAtFirst<T>(s: seq<T>, x: T)
    ensures x !in s ==> FirstIndex(s, x) == |s| && s[..FirstIndex(s, x)] == s
    ensures x in s ==> FirstIndex(s, x) < |s| &&
                       s == s[..FirstIndex(s, x)] + [x] + s[FirstIndex(s, x) + 1..]
  {
    var n := FirstIndex(s, x);
    if n < |s| {
      assert x in s;
      assert s == s[..n] + [x] + s[n + 1..];
    } else {
      assert s[..n] == s;
    }
  }

  /** A sequence can be written as `f + [x] + c` with no `x` in `f` in only
      one way: `f` ends right before the first `x`. */
  lemma SplitAtFirstIsUnique<T>(s: seq<T>, x: T, f: seq<T>, c: seq<T>)
    requires x !in f && s == f + [x] + c
    ensures FirstIndex(s, x) == |f|
    ensures f == s[..|f|] && c == s[|f| + 1..]
  {
    assert s[|f|] == x;
    assert forall k :: 0 <= k < |f| ==> s[k] == f[k];
    assert x !in s[..|f|] by {
      assert s[..|f|] == f;
    }
    assert s[..|f|] == f;
  }
}
