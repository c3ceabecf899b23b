/** Sequence facts the model relies on: subsequences (what a filtering loop that appends in order can produce), concatenation and slicing. */
module Seqs {

  /** `a` can be obtained from `b` by deleting elements, keeping the order of the rest. */
  ghost predicate Subseq<T>(a: seq<T>, b: seq<T>)
  {
    if a == [] then true
    else if b == [] then false
    else (a[|a| - 1] == b[|b| - 1] && Subseq(a[..|a| - 1], b[..|b| - 1])) || Subseq(a, b[..|b| - 1])
  }

  /** Keeping or dropping the next element of `b` preserves the relation. */
  lemma SubseqExtend<T>(a: seq<T>, b: seq<T>, x: T)
    requires Subseq(a, b)
    ensures Subseq(a + [x], b + [x]) && Subseq(a, b + [x])
  {
    assert (a + [x])[..|a|] == a;
    assert (b + [x])[..|b|] == b;
  }

  /** A subsequence is never longer. */
  lemma {:induction false} SubseqLength<T>(a: seq<T>, b: seq<T>)
    requires Subseq(a, b)
    ensures |a| <= |b|
  {
    if a != [] {
      if a[|a| - 1] == b[|b| - 1] && Subseq(a[..|a| - 1], b[..|b| - 1]) {
        SubseqLength(a[..|a| - 1], b[..|b| - 1]);
      } else {
        SubseqLength(a, b[..|b| - 1]);
      }
    }
  }

  /** Every element of a subsequence is an element of the original. */
  lemma {:induction false} SubseqMembers<T>(a: seq<T>, b: seq<T>)
    requires Subseq(a, b)
    ensures forall x :: x in a ==> x in b
  {
    if a != [] {
      if a[|a| - 1] == b[|b| - 1] && Subseq(a[..|a| - 1], b[..|b| - 1]) {
        SubseqMembers(a[..|a| - 1], b[..|b| - 1]);
        assert a == a[..|a| - 1] + [a[|a| - 1]];
        assert b == b[..|b| - 1] + [b[|b| - 1]];
      } else {
        SubseqMembers(a, b[..|b| - 1]);
        assert b == b[..|b| - 1] + [b[|b| - 1]];
      }
    }
  }

  // ---------------------------------------------------------------- concatenation and slicing

  /** The concatenation of the groups. */
  function Flatten<T>(groups: seq<seq<T>>): seq<T>
  {
    if groups == [] then [] else Flatten(groups[..|groups| - 1]) + groups[|groups| - 1]
  }

  lemma TakeOneMore<T>(s: seq<T>, n: int)
    requires 0 <= n < |s|
    ensures s[..n + 1] == s[..n] + [s[n]]
  {
  }

  lemma AppendAssoc<T>(a: seq<T>, b: seq<T>, c: seq<T>)
    ensures (a + b) + c == a + (b + c)
  {
  }

  lemma TakeAppendOne<T>(s: seq<T>, x: T)
    ensures (s + [x])[..|s|] == s && (s + [x])[|s|] == x
  {
  }

  lemma AppendNil<T>(s: seq<T>)
    ensures s + [] == s
  {
  }

  lemma TakeAll<T>(s: seq<T>)
    ensures s[..|s|] == s
  {
  }

  lemma TakeOfTake<T>(s: seq<T>, n: int, m: int)
    requires 0 <= m <= n <= |s|
    ensures s[..n][..m] == s[..m]
  {
  }

  lemma {:induction false} FlattenPrepend<T>(g: seq<T>, groups: seq<seq<T>>)
    ensures Flatten([g] + groups) == g + Flatten(groups)
    decreases |groups|
  {
    if groups != [] {
      var init := groups[..|groups| - 1];
      assert ([g] + groups)[..|groups|] == [g] + init;
      FlattenPrepend(g, init);
    } else {
      assert [g] + groups == [g];
      assert [g][..0] == [];
    }
  }

  lemma SplitThree<T>(pre: seq<T>, x: seq<T>, post: seq<T>)
    ensures var full := pre + x + post;
      full[..|pre|] == pre && full[|pre|..|pre| + |x|] == x && full[|pre| + |x|..] == post
  {
  }

  lemma SplitAt<T>(s: seq<T>, i: int)
    requires 0 <= i < |s|
    ensures s == s[..i] + [s[i]] + s[i + 1..]
  {
  }

  lemma Regroup<T>(pre: seq<T>, open: seq<T>, x: seq<T>, close: seq<T>, post: seq<T>)
    ensures pre + (open + x + close) + post == pre + open + x + close + post
  {
  }

  /** Part `j` of a concatenation sits right after the parts before it. */
  lemma {:induction false} FlattenAt<T>(xss: seq<seq<T>>, j: int)
    requires 0 <= j < |xss|
    ensures var off := |Flatten(xss[..j])|;
      off + |xss[j]| <= |Flatten(xss)| && Flatten(xss)[off..off + |xss[j]|] == xss[j]
  {
    var init := xss[..|xss| - 1];
    var off := |Flatten(xss[..j])|;
    assert Flatten(xss) == Flatten(init) + xss[|xss| - 1];
    if j < |xss| - 1 {
      FlattenAt(init, j);
      assert init[..j] == xss[..j];
    } else {
      assert xss[..j] == init;
    }
  }

  /** When each part is one longer than its partner, the concatenation is longer by the number of parts. */
  lemma {:induction false} FlattenLengthOneMore<T, U>(yss: seq<seq<U>>, xss: seq<seq<T>>)
    requires |yss| == |xss|
    requires forall k :: 0 <= k < |xss| ==> |yss[k]| == |xss[k]| + 1
    ensures |Flatten(yss)| == |xss| + |Flatten(xss)|
  {
    if xss != [] {
      FlattenLengthOneMore(yss[..|yss| - 1], xss[..|xss| - 1]);
    }
  }

  /**
    * When each part of `yss` is one longer than its partner in `xss`, element `k` of part `j`
    * sits at `j + |Flatten(xss[..j])| + k` of the concatenation.
    */
  lemma FlattenOffsetAt<T, U>(yss: seq<seq<U>>, xss: seq<seq<T>>, j: int, k: int)
    requires |yss| == |xss|
    requires forall m :: 0 <= m < |xss| ==> |yss[m]| == |xss[m]| + 1
    requires 0 <= j < |xss| && 0 <= k < |yss[j]|
    ensures j + |Flatten(xss[..j])| + k < |Flatten(yss)|
    ensures Flatten(yss)[j + |Flatten(xss[..j])| + k] == yss[j][k]
  {
    FlattenLengthOneMore(yss[..j], xss[..j]);
    FlattenAt(yss, j);
    assert Flatten(yss)[|Flatten(yss[..j])| + k] == Flatten(yss)[|Flatten(yss[..j])|..|Flatten(yss[..j])| + |yss[j]|][k];
  }
}
