/**
 * `Array.prototype.sort` with a comparator, which the source calls in three
 * places.  The engine's sort is stable, so for a consistent comparator its
 * result is the stable sorted permutation of the input; the model computes
 * that permutation by insertion.  `le(a, b)` stands for `compare(a, b) <= 0`.
 */
module Sorting {

  /** A comparator that is consistent: total and transitive. */
  ghost predicate TotalPreorder<T(!new)>(le: (T, T) -> bool) {
    && (forall x, y :: le(x, y) || le(y, x))
    && (forall x, y, z :: le(x, y) && le(y, z) ==> le(x, z))
  }

  /** A comparator whose order chains: what stability needs. */
  ghost predicate Transitive<T(!new)>(le: (T, T) -> bool) {
    forall x, y, z :: le(x, y) && le(y, z) ==> le(x, z)
  }

  ghost predicate SortedBy<T>(s: seq<T>, le: (T, T) -> bool) {
    forall i, j :: 0 <= i < j < |s| ==> le(s[i], s[j])
  }

  /** Places `x` before the first element it may precede. */
  function Insert<T>(x: T, s: seq<T>, le: (T, T) -> bool): (r: seq<T>)
    ensures multiset(r) == multiset(s) + multiset{x}
    ensures |r| == |s| + 1
  {
    if s == [] || le(x, s[0]) then [x] + s
    else
      assert s == [s[0]] + s[1..];
      [s[0]] + Insert(x, s[1..], le)
  }

  /** The array after `sort(compare)`. */
  function SortBy<T>(s: seq<T>, le: (T, T) -> bool): (r: seq<T>)
    ensures multiset(r) == multiset(s)
    ensures |r| == |s|
  {
    if s == [] then []
    else
      assert s == [s[0]] + s[1..];
      Insert(s[0], SortBy(s[1..], le), le)
  }

  lemma {:induction false} InsertSorted<T(!new)>(x: T, s: seq<T>, le: (T, T) -> bool)
    requires TotalPreorder(le) && SortedBy(s, le)
    ensures SortedBy(Insert(x, s, le), le)
  {
    if s == [] || le(x, s[0]) {
    } else {
      var t := Insert(x, s[1..], le);
      InsertSorted(x, s[1..], le);
      assert le(s[0], x);
      forall k | 0 <= k < |t| ensures le(s[0], t[k]) {
        assert t[k] in multiset(t);
        if t[k] != x {
          assert t[k] in multiset(s[1..]);
          var j :| 0 <= j < |s[1..]| && s[1..][j] == t[k];
          assert s[j + 1] == t[k];
        }
      }
    }
  }

  /** A consistent comparator leaves the array sorted. */
  lemma {:induction false} SortBySorted<T(!new)>(s: seq<T>, le: (T, T) -> bool)
    requires TotalPreorder(le)
    ensures SortedBy(SortBy(s, le), le)
  {
    if s != [] {
      SortBySorted(s[1..], le);
      InsertSorted(s[0], SortBy(s[1..], le), le);
    }
  }

  /** An array that is already in order is left exactly as it is. */
  lemma {:induction false} SortByOfSorted<T>(s: seq<T>, le: (T, T) -> bool)
    requires SortedBy(s, le)
    ensures SortBy(s, le) == s
  {
    if s != [] {
      SortByOfSorted(s[1..], le);
      if |s| > 1 {
        assert le(s[0], s[1..][0]);
      }
      assert [s[0]] + s[1..] == s;
    }
  }

  /** `[e]` when `le` ranks `e` equal to `x`, else nothing. */
  function TieOf<T>(x: T, e: T, le: (T, T) -> bool): (r: seq<T>)
    ensures r == [] || r == [e]
  {
    if le(x, e) && le(e, x) then [e] else []
  }

  /** The elements of `s` that `le` ranks equal to `x`, in their order in `s`. */
  function Ties<T>(s: seq<T>, x: T, le: (T, T) -> bool): (r: seq<T>)
    ensures |r| <= |s|
  {
    if s == [] then [] else TieOf(x, s[0], le) + Ties(s[1..], x, le)
  }

  /** Inserting `y` puts it before every element ranked equal to it that was already there. */
  lemma {:induction false} InsertTies<T(!new)>(y: T, s: seq<T>, x: T, le: (T, T) -> bool)
    requires Transitive(le)
    ensures Ties(Insert(y, s, le), x, le) == TieOf(x, y, le) + Ties(s, x, le)
  {
    if s == [] || le(y, s[0]) {
      TiesCons(y, s, x, le);
    } else {
      InsertTies(y, s[1..], x, le);
      Chain(y, x, s[0], le);
      InsertTiesStep(y, s, Insert(y, s[1..], le), x, le);
    }
  }

  /** One step of `InsertTies`, where `u` stands for `y` inserted into the tail of `s`. */
  lemma InsertTiesStep<T>(y: T, s: seq<T>, u: seq<T>, x: T, le: (T, T) -> bool)
    requires s != [] && !le(y, s[0])
    requires le(y, x) && le(x, s[0]) ==> le(y, s[0])
    requires Ties(u, x, le) == TieOf(x, y, le) + Ties(s[1..], x, le)
    ensures Ties([s[0]] + u, x, le) == TieOf(x, y, le) + Ties(s, x, le)
  {
    TiesCons(s[0], u, x, le);
    // an element tied with `x` would be tied with `y`, so `y` would have gone before it
    assert TieOf(x, y, le) == [] || TieOf(x, s[0], le) == [];
    SwapEmpty(TieOf(x, s[0], le), TieOf(x, y, le), Ties(s[1..], x, le));
  }

  lemma SwapEmpty<T>(a: seq<T>, b: seq<T>, c: seq<T>)
    requires a == [] || b == []
    ensures a + (b + c) == b + (a + c)
  {
  }

  lemma Chain<T(!new)>(a: T, b: T, c: T, le: (T, T) -> bool)
    requires Transitive(le)
    ensures le(a, b) && le(b, c) ==> le(a, c)
  {
  }

  lemma TiesCons<T>(y: T, s: seq<T>, x: T, le: (T, T) -> bool)
    ensures Ties([y] + s, x, le) == TieOf(x, y, le) + Ties(s, x, le)
  {
    assert ([y] + s)[1..] == s;
  }

  /** The sort is stable: for a comparator that chains, elements ranked equal keep the order they had in the input. */
  lemma {:induction false} SortByStable<T(!new)>(s: seq<T>, x: T, le: (T, T) -> bool)
    requires Transitive(le)
    ensures Ties(SortBy(s, le), x, le) == Ties(s, x, le)
  {
    if s != [] {
      SortByStable(s[1..], x, le);
      InsertTies(s[0], SortBy(s[1..], le), x, le);
    }
  }

  /** For a consistent comparator, order between neighbours is order throughout. */
  lemma {:induction false} SortedByNeighbours<T(!new)>(s: seq<T>, le: (T, T) -> bool)
    requires TotalPreorder(le)
    requires forall i :: 0 <= i < |s| - 1 ==> le(s[i], s[i + 1])
    ensures SortedBy(s, le)
  {
    if |s| > 1 {
      SortedByNeighbours(s[1..], le);
      forall j | 1 <= j < |s| ensures le(s[0], s[j]) {
        if j > 1 {
          assert le(s[1..][0], s[1..][j - 1]);
        }
      }
    }
  }

  /** Elements whose keys are pairwise different. */
  ghost predicate KeysDistinct<T, K>(s: seq<T>, key: T -> K) {
    forall a, b :: 0 <= a < b < |s| ==> key(s[a]) != key(s[b])
  }

  lemma OccursOnce<T, K>(s: seq<T>, key: T -> K, p: int)
    requires KeysDistinct(s, key) && 0 <= p < |s|
    ensures multiset(s)[s[p]] == 1
  {
    assert s == s[..p] + [s[p]] + s[p + 1..];
    assert s[p] !in s[..p] by {
      forall a | 0 <= a < p ensures s[..p][a] != s[p] { assert key(s[a]) != key(s[p]); }
    }
    assert s[p] !in s[p + 1..] by {
      forall a | p < a < |s| ensures s[a] != s[p] { assert key(s[p]) != key(s[a]); }
    }
  }

  lemma OccursTwice<T>(t: seq<T>, a: int, b: int)
    requires 0 <= a < b < |t| && t[a] == t[b]
    ensures multiset(t)[t[a]] >= 2
  {
    assert t == t[..a] + [t[a]] + t[a + 1..b] + [t[b]] + t[b + 1..];
  }

  /** A permutation of elements with pairwise different keys still has pairwise different keys. */
  lemma PermutationKeepsKeysDistinct<T, K>(s: seq<T>, t: seq<T>, key: T -> K)
    requires multiset(s) == multiset(t) && KeysDistinct(s, key)
    ensures KeysDistinct(t, key)
  {
    forall a, b | 0 <= a < b < |t| ensures key(t[a]) != key(t[b]) {
      if key(t[a]) == key(t[b]) {
        assert t[a] in multiset(s) && t[b] in multiset(s);
        var p :| 0 <= p < |s| && s[p] == t[a];
        var q :| 0 <= q < |s| && s[q] == t[b];
        if p < q { assert key(s[p]) != key(s[q]); }
        if q < p { assert key(s[q]) != key(s[p]); }
        OccursOnce(s, key, p);
        OccursTwice(t, a, b);
        assert false;
      }
    }
  }
}
