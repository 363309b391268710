/** The array operations the JavaScript code relies on (`indexOf`, `splice`,
    `filter`, `map`, Mongo's `$addToSet`/`$pull`), written once over sequences. */
module Seqs {

  /** No element occurs twice. */
  ghost predicate NoDup<T>(s: seq<T>) {
    forall i, j :: 0 <= i < j < |s| ==> s[i] != s[j]
  }

  /** `Array.prototype.indexOf`: the first index holding `x`, or -1. */
  function IndexOf<T(==)>(s: seq<T>, x: T): (i: int)
    ensures -1 <= i < |s|
    ensures i == -1 <==> x !in s
    ensures 0 <= i ==> s[i] == x && x !in s[..i]
  {
    if |s| == 0 then -1
    else if s[0] == x then 0
    else
      var j := IndexOf(s[1..], x);
      assert 0 <= j ==> s[..j + 1] == [s[0]] + s[1..][..j];
      if j == -1 then -1 else j + 1
  }

  /** The first `x` of `a + [x] + b` is the one after `a` when `a` has none. */
  lemma IndexOfAfter<T>(a: seq<T>, x: T, b: seq<T>)
    requires x !in a
    ensures IndexOf(a + [x] + b, x) == |a|
  {
    var s := a + [x] + b;
    assert s[..|a|] == a;
    assert s[|a|] == x;
  }

  /** `Array.prototype.lastIndexOf`: the last index holding `x`, or -1. */
  function LastIndexOf<T(==)>(s: seq<T>, x: T): (i: int)
    ensures -1 <= i < |s|
    ensures 0 <= i ==> s[i] == x
    ensures forall k :: i < k < |s| ==> s[k] != x
  {
    if |s| == 0 then -1
    else if s[|s| - 1] == x then |s| - 1
    else LastIndexOf(s[..|s| - 1], x)
  }

  /** The last occurrence is where `x` sits with no `x` after it. */
  lemma LastIndexOfAt<T>(s: seq<T>, x: T, i: int)
    requires 0 <= i < |s| && s[i] == x
    requires forall k :: i < k < |s| ==> s[k] != x
    ensures LastIndexOf(s, x) == i
  {
  }

  /** `indexOf` followed by `splice(index, 1)`: drops the first occurrence of `x`,
      leaving the sequence unchanged when `x` does not occur. */
  function RemoveFirst<T(==)>(s: seq<T>, x: T): (r: seq<T>)
    ensures x !in s ==> r == s
    ensures x in s ==> |r| == |s| - 1
    ensures multiset(r) == multiset(s) - multiset{x}
    ensures x in s ==> forall k :: 0 <= k < |r| ==> r[k] == s[if k < IndexOf(s, x) then k else k + 1]
  {
    var i := IndexOf(s, x);
    if i == -1 then s
    else
      assert s == s[..i] + [s[i]] + s[i + 1..];
      WithoutAt(s, i, s[..i] + s[i + 1..]);
      s[..i] + s[i + 1..]
  }

  /** `s` split around index `i` and put back together. */
  lemma Around<T>(s: seq<T>, i: int)
    requires 0 <= i < |s|
    ensures s[..i] + [s[i]] + s[i + 1..] == s
  {
  }

  /** The elements of `s` without index `i`, position by position. */
  lemma WithoutAt<T>(s: seq<T>, i: int, r: seq<T>)
    requires 0 <= i < |s| && r == s[..i] + s[i + 1..]
    ensures |r| == |s| - 1
    ensures forall k :: 0 <= k < |r| ==> r[k] == s[if k < i then k else k + 1]
  {
  }

  /** On a duplicate-free sequence, removing the first occurrence removes `x`
      altogether and keeps every other element. */
  lemma RemoveFirstNoDup<T>(s: seq<T>, x: T)
    requires NoDup(s)
    ensures NoDup(RemoveFirst(s, x))
    ensures forall y :: y in RemoveFirst(s, x) <==> y in s && y != x
  {
    var i := IndexOf(s, x);
    if i != -1 {
      var r := s[..i] + s[i + 1..];
      WithoutAt(s, i, r);
      forall a, b | 0 <= a < b < |r| ensures r[a] != r[b] {
        assert r[a] == s[if a < i then a else a + 1];
        assert r[b] == s[if b < i then b else b + 1];
      }
      forall y | y in r ensures y in s && y != x {
        var k :| 0 <= k < |r| && r[k] == y;
        assert y == s[if k < i then k else k + 1];
      }
      forall y | y in s && y != x ensures y in r {
        var k :| 0 <= k < |s| && s[k] == y;
        assert y == r[if k < i then k else k - 1];
      }
    }
  }

  /** Appending an absent element and then removing it restores the sequence. */
  lemma RemoveFirstAfterAppend<T>(s: seq<T>, x: T)
    requires x !in s
    ensures RemoveFirst(s + [x], x) == s
  {
    var i := IndexOf(s + [x], x);
    assert forall k :: 0 <= k < |s| ==> (s + [x])[k] == s[k];
    assert i == |s|;
    assert (s + [x])[..i] == s;
  }

  /** Prepending an element and then removing its first occurrence restores the sequence. */
  lemma RemoveFirstAfterPrepend<T>(s: seq<T>, x: T)
    ensures RemoveFirst([x] + s, x) == s
  {
    assert IndexOf([x] + s, x) == 0;
    assert ([x] + s)[1..] == s;
  }

  /** `Array.prototype.filter`: the elements satisfying `keep`, in their original order. */
  function Filter<T(!new)>(s: seq<T>, keep: T -> bool): (r: seq<T>)
    ensures |r| <= |s|
    ensures forall y :: y in r <==> y in s && keep(y)
  {
    if |s| == 0 then []
    else if keep(s[0]) then [s[0]] + Filter(s[1..], keep)
    else Filter(s[1..], keep)
  }

  /** Filtering distributes over concatenation, so the kept elements keep their order. */
  lemma {:induction false} FilterConcat<T(!new)>(a: seq<T>, b: seq<T>, keep: T -> bool)
    ensures Filter(a + b, keep) == Filter(a, keep) + Filter(b, keep)
  {
    if |a| == 0 {
      assert a + b == b;
    } else {
      assert (a + b)[1..] == a[1..] + b;
      FilterConcat(a[1..], b, keep);
    }
  }

  /** Filtering a single element keeps it or drops it. */
  lemma FilterSingle<T(!new)>(x: T, keep: T -> bool)
    ensures Filter([x], keep) == if keep(x) then [x] else []
  {
    assert [x][1..] == [];
  }

  /** Filtering out one rejected element between kept parts leaves the parts, in order. */
  lemma FilterDropsOne<T(!new)>(before: seq<T>, x: T, after: seq<T>, keep: T -> bool)
    requires forall y :: y in before ==> keep(y)
    requires forall y :: y in after ==> keep(y)
    requires !keep(x)
    ensures Filter(before + [x] + after, keep) == before + after
  {
    FilterConcat(before + [x], after, keep);
    FilterConcat(before, [x], keep);
    var fb := Filter(before, keep);
    var fa := Filter(after, keep);
    FilterKeepsAll(before, keep);
    FilterKeepsAll(after, keep);
    FilterSingle(x, keep);
    calc {
      Filter(before + [x] + after, keep);
      Filter(before + [x], keep) + fa;
      fb + Filter([x], keep) + fa;
      before + [] + after;
      { assert before + [] == before; }
      before + after;
    }
  }

  /** A filter that rejects nothing is the identity. */
  lemma {:induction false} FilterKeepsAll<T(!new)>(s: seq<T>, keep: T -> bool)
    requires forall y :: y in s ==> keep(y)
    ensures Filter(s, keep) == s
  {
    if |s| > 0 {
      assert forall y :: y in s[1..] ==> y in s;
      FilterKeepsAll(s[1..], keep);
    }
  }

  /** Filtering keeps a duplicate-free sequence duplicate-free. */
  lemma {:induction false} FilterNoDup<T(!new)>(s: seq<T>, keep: T -> bool)
    requires NoDup(s)
    ensures NoDup(Filter(s, keep))
  {
    if |s| > 0 {
      assert NoDup(s[1..]) by {
        forall i, j | 0 <= i < j < |s[1..]| ensures s[1..][i] != s[1..][j] {
          assert s[1..][i] == s[i + 1] && s[1..][j] == s[j + 1];
        }
      }
      FilterNoDup(s[1..], keep);
      var rest := Filter(s[1..], keep);
      if keep(s[0]) {
        assert s[0] !in s[1..] by {
          forall k | 0 <= k < |s[1..]| ensures s[1..][k] != s[0] {
            assert s[1..][k] == s[k + 1];
          }
        }
        var r := [s[0]] + rest;
        forall i, j | 0 <= i < j < |r| ensures r[i] != r[j] {
          if i == 0 {
            assert r[j] == rest[j - 1] && r[j] in rest;
          } else {
            assert r[i] == rest[i - 1] && r[j] == rest[j - 1];
          }
        }
      }
    }
  }

  /** The test `y => y != x`, named so that every use denotes the same function. */
  function Except<T(==)>(x: T): T -> bool {
    y => y != x
  }

  /** Mongo's `$pull`: removes every occurrence of `x`. */
  function RemoveAll<T(==,!new)>(s: seq<T>, x: T): (r: seq<T>)
  {
    Filter(s, Except(x))
  }

  /** Mongo's `$addToSet`: appends `x` unless it is already present. */
  function AddToSet<T(==,!new)>(s: seq<T>, x: T): (r: seq<T>)
    ensures x in r
    ensures forall y :: y in r <==> y in s || y == x
    ensures NoDup(s) ==> NoDup(r)
  {
    if x in s then s else s + [x]
  }

  /** `xs.map(y => p(y) ? z : y)`: replaces exactly the elements satisfying `p`. */
  function ReplaceWhere<T>(s: seq<T>, p: T -> bool, z: T): (r: seq<T>)
    ensures |r| == |s|
    ensures forall i :: 0 <= i < |s| ==> r[i] == if p(s[i]) then z else s[i]
  {
    if |s| == 0 then []
    else [if p(s[0]) then z else s[0]] + ReplaceWhere(s[1..], p, z)
  }
}
