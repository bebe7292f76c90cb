/**
  The JavaScript array operations the directory relies on, over Dafny sequences:
  `filter`, `find` (with its index), `indexOf`, and the first-seen-order
  de-duplication that `Array.from(new Set(xs))` performs.
*/
module Seqs {

  datatype Option<T> = None | Some(value: T)

  /** `s` can be obtained from `t` by deleting elements (the order is kept). */
  predicate IsSubsequence<T(==)>(s: seq<T>, t: seq<T>)
    decreases |t|
  {
    s == [] || (t != [] && ((s[0] == t[0] && IsSubsequence(s[1..], t[1..])) || IsSubsequence(s, t[1..])))
  }

  /** `Array.prototype.filter`: the elements of `s` that satisfy `p`, in order. */
  function Filter<T>(s: seq<T>, p: T -> bool): (r: seq<T>)
    ensures |r| <= |s|
    ensures forall i :: 0 <= i < |r| ==> p(r[i]) && r[i] in s
  {
    if s == [] then []
    else if p(s[0]) then [s[0]] + Filter(s[1..], p)
    else Filter(s[1..], p)
  }

  /** Number of positions of `s` whose element satisfies `p`, counted from the back. */
  function CountWhere<T>(s: seq<T>, p: T -> bool): nat
  {
    if s == [] then 0
    else CountWhere(s[..|s| - 1], p) + (if p(s[|s| - 1]) then 1 else 0)
  }

  lemma {:induction false} FilterIsSubsequence<T>(s: seq<T>, p: T -> bool)
    ensures IsSubsequence(Filter(s, p), s)
  {
    if s != [] {
      FilterIsSubsequence(s[1..], p);
      var r := Filter(s, p);
      if p(s[0]) {
        assert r[0] == s[0] && r[1..] == Filter(s[1..], p);
      } else {
        assert r == Filter(s[1..], p);
      }
    }
  }

  lemma {:induction false} FilterMembership<T>(s: seq<T>, p: T -> bool, x: T)
    ensures x in Filter(s, p) <==> x in s && p(x)
  {
    if s != [] {
      FilterMembership(s[1..], p, x);
      assert s == [s[0]] + s[1..];
    }
  }

  /** Each value is kept exactly as often as it occurs in `s`, when it satisfies `p`. */
  lemma {:induction false} FilterMultiplicity<T>(s: seq<T>, p: T -> bool, x: T)
    ensures multiset(Filter(s, p))[x] == if p(x) then multiset(s)[x] else 0
  {
    if s != [] {
      FilterMultiplicity(s[1..], p, x);
      assert s == [s[0]] + s[1..];
      assert multiset(s) == multiset([s[0]]) + multiset(s[1..]);
      if p(s[0]) {
        assert multiset(Filter(s, p)) == multiset([s[0]]) + multiset(Filter(s[1..], p));
      }
    }
  }

  lemma {:induction false} FilterConcat<T>(s: seq<T>, t: seq<T>, p: T -> bool)
    ensures Filter(s + t, p) == Filter(s, p) + Filter(t, p)
  {
    if s == [] {
      assert s + t == t;
    } else {
      assert (s + t)[1..] == s[1..] + t;
      FilterConcat(s[1..], t, p);
    }
  }

  lemma {:induction false} FilterLength<T>(s: seq<T>, p: T -> bool)
    ensures |Filter(s, p)| == CountWhere(s, p)
  {
    if s != [] {
      var init, last := s[..|s| - 1], s[|s| - 1];
      assert s == init + [last];
      FilterConcat(init, [last], p);
      FilterLength(init, p);
    }
  }

  /** A predicate that holds of every element keeps the whole sequence. */
  lemma {:induction false} FilterKeepsAll<T>(s: seq<T>, p: T -> bool)
    requires forall i :: 0 <= i < |s| ==> p(s[i])
    ensures Filter(s, p) == s
  {
    if s != [] {
      FilterKeepsAll(s[1..], p);
      assert s == [s[0]] + s[1..];
    }
  }

  /** The result of `filter` is empty exactly when no element satisfies `p`. */
  lemma FilterEmpty<T>(s: seq<T>, p: T -> bool)
    ensures Filter(s, p) == [] <==> forall i :: 0 <= i < |s| ==> !p(s[i])
  {
    if Filter(s, p) == [] {
      forall i | 0 <= i < |s| ensures !p(s[i]) {
        FilterMembership(s, p, s[i]);
      }
    } else {
      FilterMembership(s, p, Filter(s, p)[0]);
    }
  }

  /** `Array.prototype.findIndex`: the first position whose element satisfies `p`. */
  function FindIndex<T>(s: seq<T>, p: T -> bool): (r: Option<nat>)
    ensures r.Some? ==> r.value < |s| && p(s[r.value]) && forall j :: 0 <= j < r.value ==> !p(s[j])
    ensures r.None? ==> forall j :: 0 <= j < |s| ==> !p(s[j])
  {
    if s == [] then None
    else if p(s[0]) then Some(0)
    else match FindIndex(s[1..], p)
      case None => None
      case Some(k) => Some(k + 1)
  }

  /** `Array.prototype.find`: the first element satisfying `p`, or absent (`undefined`). */
  function Find<T>(s: seq<T>, p: T -> bool): (r: Option<T>)
    ensures r.Some? <==> FindIndex(s, p).Some?
    ensures r.Some? ==> r.value == s[FindIndex(s, p).value]
  {
    match FindIndex(s, p)
    case None => None
    case Some(k) => Some(s[k])
  }

  /** `Array.prototype.indexOf` for a value known to occur. */
  function IndexOf<T(==)>(s: seq<T>, x: T): (k: nat)
    requires x in s
    ensures k < |s| && s[k] == x && x !in s[..k]
  {
    if s[0] == x then 0 else 1 + IndexOf(s[1..], x)
  }

  lemma IndexOfUnique<T>(s: seq<T>, x: T, k: nat)
    requires k < |s| && s[k] == x && x !in s[..k]
    ensures IndexOf(s, x) == k
  {
  }

  /** Looking a value up in a longer sequence finds the same first position. */
  lemma IndexOfPrefix<T>(s: seq<T>, m: nat, x: T)
    requires m <= |s| && x in s[..m]
    ensures IndexOf(s, x) == IndexOf(s[..m], x)
  {
    var k := IndexOf(s[..m], x);
    assert s[..m][..k] == s[..k];
    IndexOfUnique(s, x, k);
  }

  predicate NoDuplicates<T(==)>(s: seq<T>)
  {
    forall i, j :: 0 <= i < j < |s| ==> s[i] != s[j]
  }

  /**
    `Array.from(new Set(s))`: each value of `s` once, in the order in which a
    `Set` first received it (insertion order).
  */
  function Distinct<T(==)>(s: seq<T>): (r: seq<T>)
    ensures forall i :: 0 <= i < |s| ==> s[i] in r
    ensures forall i :: 0 <= i < |r| ==> r[i] in s
    ensures NoDuplicates(r)
  {
    if s == [] then []
    else
      var r := Distinct(s[..|s| - 1]);
      assert forall i :: 0 <= i < |s| - 1 ==> s[i] == s[..|s| - 1][i];
      if s[|s| - 1] in r then r else r + [s[|s| - 1]]
  }

  /** The values come out ordered by the position of their first occurrence in `s`. */
  lemma {:induction false} DistinctFirstSeenOrder<T>(s: seq<T>)
    ensures forall i, j :: 0 <= i < j < |Distinct(s)| ==> IndexOf(s, Distinct(s)[i]) < IndexOf(s, Distinct(s)[j])
  {
    if s != [] {
      var n := |s|;
      var init, last := s[..n - 1], s[n - 1];
      var r0 := Distinct(init);
      DistinctFirstSeenOrder(init);
      forall x | x in init ensures IndexOf(s, x) == IndexOf(init, x) < n - 1 {
        IndexOfPrefix(s, n - 1, x);
      }
      var r := Distinct(s);
      if last !in r0 {
        assert r == r0 + [last];
        assert last !in init;
        IndexOfUnique(s, last, n - 1);
        forall i, j | 0 <= i < j < |r| ensures IndexOf(s, r[i]) < IndexOf(s, r[j]) {
          assert r[i] == r0[i] && r0[i] in init;
          if j < |r0| {
            assert r[j] == r0[j] && r0[j] in init;
          } else {
            assert r[j] == last;
          }
        }
      } else {
        assert r == r0;
        forall i, j | 0 <= i < j < |r| ensures IndexOf(s, r[i]) < IndexOf(s, r[j]) {
          assert r0[i] in init && r0[j] in init;
        }
      }
    }
  }
}
