/**
  Boolean-mask selection over sequences: `xs[mask]` keeps the elements whose
  mask entry is true, in their original order. The engine uses it twice:
  to filter the dataset down to its anomalous rows, and to pick which pattern
  types, in assembly order, become recommendations.
 */
module Masks {

  /** The elements of `xs` whose mask entry is set, in the order of `xs`. */
  function Select<T>(xs: seq<T>, mask: seq<bool>): (r: seq<T>)
    requires |xs| == |mask|
    ensures |r| <= |xs|
    ensures (forall i | 0 <= i < |mask| :: mask[i]) ==> r == xs
    ensures (forall i | 0 <= i < |mask| :: !mask[i]) ==> r == []
  {
    if xs == [] then []
    else (if mask[0] then [xs[0]] else []) + Select(xs[1..], mask[1..])
  }

  /** `a` can be obtained from `b` by deleting elements. */
  predicate IsSubsequence<T(==)>(a: seq<T>, b: seq<T>)
    decreases |b|
  {
    if a == [] then true
    else if b == [] then false
    else if a[0] == b[0] then IsSubsequence(a[1..], b[1..])
    else IsSubsequence(a, b[1..])
  }

  /** No element occurs twice. */
  predicate NoDuplicates<T(==)>(s: seq<T>)
  {
    forall i, j | 0 <= i < j < |s| :: s[i] != s[j]
  }

  /** An element is selected exactly when one of its occurrences is masked in. */
  lemma {:induction false} SelectMember<T>(xs: seq<T>, mask: seq<bool>, x: T)
    requires |xs| == |mask|
    ensures x in Select(xs, mask) <==> exists i | 0 <= i < |xs| :: xs[i] == x && mask[i]
  {
    if xs != [] {
      SelectMember(xs[1..], mask[1..], x);
      if exists i | 0 <= i < |xs[1..]| :: xs[1..][i] == x && mask[1..][i] {
        var i :| 0 <= i < |xs[1..]| && xs[1..][i] == x && mask[1..][i];
        assert xs[i + 1] == x && mask[i + 1];
      }
      if exists i | 0 <= i < |xs| :: xs[i] == x && mask[i] {
        var i :| 0 <= i < |xs| && xs[i] == x && mask[i];
        if i > 0 {
          assert xs[1..][i - 1] == x && mask[1..][i - 1];
        }
      }
    }
  }

  /** In a sequence without duplicates, the element at position `i` is selected iff `mask[i]`. */
  lemma SelectAt<T>(xs: seq<T>, mask: seq<bool>, i: int)
    requires |xs| == |mask| && NoDuplicates(xs) && 0 <= i < |xs|
    ensures xs[i] in Select(xs, mask) <==> mask[i]
  {
    SelectMember(xs, mask, xs[i]);
  }

  /** Selection keeps the relative order of what it keeps. */
  lemma {:induction false} SelectIsSubsequence<T>(xs: seq<T>, mask: seq<bool>)
    requires |xs| == |mask|
    ensures IsSubsequence(Select(xs, mask), xs)
  {
    if xs != [] {
      SelectIsSubsequence(xs[1..], mask[1..]);
      var rest := Select(xs[1..], mask[1..]);
      if mask[0] {
        assert Select(xs, mask) == [xs[0]] + rest;
        assert ([xs[0]] + rest)[1..] == rest;
      } else {
        assert Select(xs, mask) == rest;
        SubsequenceDropHead(rest, xs);
      }
    }
  }

  /** A subsequence of the tail is a subsequence of the whole. */
  lemma {:induction false} SubsequenceDropHead<T>(a: seq<T>, b: seq<T>)
    requires b != [] && IsSubsequence(a, b[1..])
    ensures IsSubsequence(a, b)
    decreases |b|, 0
  {
    if a != [] && a[0] == b[0] {
      SubsequenceOfTail(a, b[1..]);
    }
  }

  /** Dropping the head of a non-empty subsequence keeps it a subsequence. */
  lemma {:induction false} SubsequenceOfTail<T>(a: seq<T>, b: seq<T>)
    requires a != [] && IsSubsequence(a, b)
    ensures IsSubsequence(a[1..], b)
    decreases |b|, 1
  {
    if a[0] != b[0] {
      SubsequenceOfTail(a, b[1..]);
    }
    SubsequenceDropHead(a[1..], b);
  }

  /** Selection from a duplicate-free sequence is duplicate-free. */
  lemma {:induction false} SelectNoDuplicates<T>(xs: seq<T>, mask: seq<bool>)
    requires |xs| == |mask| && NoDuplicates(xs)
    ensures NoDuplicates(Select(xs, mask))
  {
    if xs != [] {
      assert NoDuplicates(xs[1..]) by {
        forall i, j | 0 <= i < j < |xs[1..]| ensures xs[1..][i] != xs[1..][j] {
          assert xs[1..][i] == xs[i + 1] && xs[1..][j] == xs[j + 1];
        }
      }
      SelectNoDuplicates(xs[1..], mask[1..]);
      var rest := Select(xs[1..], mask[1..]);
      if mask[0] {
        SelectMember(xs[1..], mask[1..], xs[0]);
        assert xs[0] !in rest;
        var r := [xs[0]] + rest;
        forall i, j | 0 <= i < j < |r| ensures r[i] != r[j] {
          if i == 0 {
            assert r[j] == rest[j - 1];
          } else {
            assert r[i] == rest[i - 1] && r[j] == rest[j - 1];
          }
        }
      }
    }
  }

  /** Selecting from a concatenation is concatenating the selections. */
  lemma {:induction false} SelectAppend<T>(xs: seq<T>, mxs: seq<bool>, ys: seq<T>, mys: seq<bool>)
    requires |xs| == |mxs| && |ys| == |mys|
    ensures Select(xs + ys, mxs + mys) == Select(xs, mxs) + Select(ys, mys)
  {
    if xs == [] {
      assert xs + ys == ys && mxs + mys == mys;
    } else {
      var h := if mxs[0] then [xs[0]] else [];
      assert (xs + ys)[1..] == xs[1..] + ys;
      assert (mxs + mys)[1..] == mxs[1..] + mys;
      assert Select(xs + ys, mxs + mys) == h + Select(xs[1..] + ys, mxs[1..] + mys);
      SelectAppend(xs[1..], mxs[1..], ys, mys);
      assert Select(xs, mxs) == h + Select(xs[1..], mxs[1..]);
    }
  }
}
