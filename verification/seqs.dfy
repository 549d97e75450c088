/**
 * Sequence helpers shared by the record stores. A SQL `DELETE ... WHERE` or
 * `SELECT ... WHERE` over an un-ordered table is modelled as a filter over the
 * table's rows kept in insertion order.
 */
module Seqs {

  /** The elements of `s` that satisfy `p`, in their original order. */
  function Filter<T>(s: seq<T>, p: T -> bool): (r: seq<T>)
    ensures |r| <= |s|
    ensures forall x :: x in r ==> x in s && p(x)
    ensures forall x :: x in s && p(x) ==> x in r
    decreases |s|
  {
    if s == [] then []
    else if p(s[0]) then [s[0]] + Filter(s[1..], p)
    else Filter(s[1..], p)
  }

  /** `f` applied to every element of `s`, in order. */
  function Map<T, U>(s: seq<T>, f: T -> U): (r: seq<U>)
    ensures |r| == |s|
    ensures forall i :: 0 <= i < |s| ==> r[i] == f(s[i])
  {
    seq(|s|, i requires 0 <= i < |s| => f(s[i]))
  }

  /** Filtering keeps every multiplicity of a kept element and drops the others. */
  lemma {:induction false} FilterCount<T>(s: seq<T>, p: T -> bool, x: T)
    ensures multiset(Filter(s, p))[x] == if p(x) then multiset(s)[x] else 0
    decreases |s|
  {
    if s != [] {
      FilterCount(s[1..], p, x);
      assert s == [s[0]] + s[1..];
      assert multiset(s) == multiset([s[0]]) + multiset(s[1..]);
      if p(s[0]) {
        assert Filter(s, p) == [s[0]] + Filter(s[1..], p);
        assert multiset(Filter(s, p)) == multiset([s[0]]) + multiset(Filter(s[1..], p));
      }
    }
  }

  /** A filter removes nothing exactly when every element passes it. */
  lemma {:induction false} FilterKeepsLength<T>(s: seq<T>, p: T -> bool)
    ensures |Filter(s, p)| == |s| <==> forall i :: 0 <= i < |s| ==> p(s[i])
    decreases |s|
  {
    if s != [] {
      FilterKeepsLength(s[1..], p);
      if p(s[0]) {
        if forall i :: 0 <= i < |s| - 1 ==> p(s[1..][i]) {
          forall i | 0 <= i < |s| ensures p(s[i]) {
            if i > 0 { assert s[i] == s[1..][i - 1]; }
          }
        } else {
          var i :| 0 <= i < |s| - 1 && !p(s[1..][i]);
          assert !p(s[i + 1]);
        }
      }
    }
  }

  /** Filtering twice is filtering once by the conjunction. */
  lemma {:induction false} FilterFilter<T>(s: seq<T>, p: T -> bool, q: T -> bool, both: T -> bool)
    requires forall x :: x in s ==> both(x) == (p(x) && q(x))
    ensures Filter(Filter(s, p), q) == Filter(s, both)
    decreases |s|
  {
    if s != [] {
      assert forall x :: x in s[1..] ==> x in s;
      FilterFilter(s[1..], p, q, both);
      if p(s[0]) {
        assert Filter(s, p) == [s[0]] + Filter(s[1..], p);
        assert Filter(s, p)[1..] == Filter(s[1..], p);
      }
    }
  }

  /** Where the kept elements of `Filter(s, p)` sit in `s`, in order. */
  function Positions<T>(s: seq<T>, p: T -> bool): seq<nat>
    decreases |s|
  {
    if s == [] then []
    else if p(s[0]) then [0] + Shift(Positions(s[1..], p))
    else Shift(Positions(s[1..], p))
  }

  /** Every position moved one place to the right. */
  function Shift(pos: seq<nat>): (r: seq<nat>)
    ensures |r| == |pos|
    ensures forall k :: 0 <= k < |pos| ==> r[k] == pos[k] + 1
  {
    seq(|pos|, k requires 0 <= k < |pos| => pos[k] + 1)
  }

  /** The positions strictly increase. */
  predicate Ascending(pos: seq<nat>)
  {
    forall k, l :: 0 <= k < l < |pos| ==> pos[k] < pos[l]
  }

  /** The k-th position of `pos` holds, in `s`, the k-th element of `r`. */
  ghost predicate Locates<T>(s: seq<T>, pos: seq<nat>, r: seq<T>)
  {
    |pos| == |r| && forall k :: 0 <= k < |pos| ==> pos[k] < |s| && s[pos[k]] == r[k]
  }

  /**
   * Filtering keeps positions in order: the k-th kept element sits at the
   * k-th of strictly increasing positions of `s`.
   */
  lemma {:induction false} PositionsOfFilter<T>(s: seq<T>, p: T -> bool)
    ensures Locates(s, Positions(s, p), Filter(s, p))
    ensures Ascending(Positions(s, p))
    decreases |s|
  {
    if s != [] {
      PositionsOfFilter(s[1..], p);
      var tail := Positions(s[1..], p);
      var f := Filter(s[1..], p);
      var shifted := Shift(tail);
      assert Locates(s, shifted, f) by {
        forall k | 0 <= k < |shifted| ensures shifted[k] < |s| && s[shifted[k]] == f[k] {
          assert s[shifted[k]] == s[1..][tail[k]];
        }
      }
      assert Ascending(shifted) by {
        forall k, l | 0 <= k < l < |shifted| ensures shifted[k] < shifted[l] {
          assert tail[k] < tail[l];
        }
      }
      if p(s[0]) {
        ConsPositions(s, shifted, f);
        assert Filter(s, p) == [s[0]] + f;
      } else {
        assert Filter(s, p) == f;
      }
    }
  }

  /** Putting the first element in front of positions of the rest keeps both properties. */
  lemma ConsPositions<T>(s: seq<T>, shifted: seq<nat>, f: seq<T>)
    requires |s| > 0 && Locates(s, shifted, f) && Ascending(shifted)
    requires forall k :: 0 <= k < |shifted| ==> shifted[k] > 0
    ensures Locates(s, [0] + shifted, [s[0]] + f)
    ensures Ascending([0] + shifted)
  {
    var pos := [0] + shifted;
    var r := [s[0]] + f;
    forall k | 0 <= k < |pos| ensures pos[k] < |s| && s[pos[k]] == r[k] {
      if k > 0 {
        assert pos[k] == shifted[k - 1] && r[k] == f[k - 1];
      }
    }
    forall k, l | 0 <= k < l < |pos| ensures pos[k] < pos[l] {
      assert pos[l] == shifted[l - 1];
      if k > 0 {
        assert pos[k] == shifted[k - 1];
      }
    }
  }

  /** A filter that every element passes changes nothing. */
  lemma {:induction false} FilterAll<T>(s: seq<T>, p: T -> bool)
    requires forall x :: x in s ==> p(x)
    ensures Filter(s, p) == s
    decreases |s|
  {
    if s != [] {
      assert forall x :: x in s[1..] ==> x in s;
      FilterAll(s[1..], p);
    }
  }
}
