/**
 * Stable sorting by a caller-supplied "may come before" relation, the model
 * of Rust's `sort_by` / `sort`.  A sequence is sorted by inserting its
 * elements one by one, left to right, each after every element that may
 * precede it; elements that compare equal therefore keep their input order.
 */
module Sorting {

  /** `le` is total and transitive, as every comparator used here is. */
  ghost predicate TotalPreorder<T(!new)>(le: (T, T) -> bool) {
    (forall a, b :: le(a, b) || le(b, a)) &&
    (forall a, b, c :: le(a, b) && le(b, c) ==> le(a, c))
  }

  /** Every element may come before every later one. */
  predicate SortedBy<T>(s: seq<T>, le: (T, T) -> bool) {
    forall i, j :: 0 <= i < j < |s| ==> le(s[i], s[j])
  }

  /** Where `x` goes: after the longest prefix whose elements may precede it. */
  function InsertPos<T>(s: seq<T>, x: T, le: (T, T) -> bool): (p: nat)
    ensures p <= |s|
    ensures forall i :: 0 <= i < p ==> le(s[i], x)
    ensures p < |s| ==> !le(s[p], x)
  {
    if |s| == 0 then 0
    else if le(s[0], x) then 1 + InsertPos(s[1..], x, le)
    else 0
  }

  /** Inserting into a sorted sequence keeps it sorted. */
  lemma InsertSorted<T(!new)>(s: seq<T>, x: T, le: (T, T) -> bool)
    ensures TotalPreorder(le) && SortedBy(s, le) ==>
      var p := InsertPos(s, x, le); SortedBy(s[..p] + [x] + s[p..], le)
  {
    if TotalPreorder(le) && SortedBy(s, le) {
      InsertSortedWhenOrdered(s, x, le);
    }
  }

  lemma InsertSortedWhenOrdered<T(!new)>(s: seq<T>, x: T, le: (T, T) -> bool)
    requires TotalPreorder(le) && SortedBy(s, le)
    ensures var p := InsertPos(s, x, le); SortedBy(s[..p] + [x] + s[p..], le)
  {
    var p := InsertPos(s, x, le);
    var r := s[..p] + [x] + s[p..];
    forall i, j | 0 <= i < j < |r|
      ensures le(r[i], r[j])
    {
      if p < |s| {
        assert le(x, s[p]);
      }
      if i < p && j == p {
      } else if i < p && j > p {
        assert r[j] == s[j - 1];
      } else if i == p && j > p {
        assert r[j] == s[j - 1];
        assert le(s[p], s[j - 1]) || p == j - 1;
      } else if i > p {
        assert r[i] == s[i - 1] && r[j] == s[j - 1];
      }
    }
  }

  /** `x` inserted at its place in `s`. */
  function Insert<T(!new)>(s: seq<T>, x: T, le: (T, T) -> bool): (r: seq<T>)
    ensures |r| == |s| + 1
    ensures multiset(r) == multiset(s) + multiset{x}
    ensures TotalPreorder(le) && SortedBy(s, le) ==> SortedBy(r, le)
  {
    var p := InsertPos(s, x, le);
    assert s == s[..p] + s[p..];
    InsertSorted(s, x, le);
    s[..p] + [x] + s[p..]
  }

  /** A stable sort of `s` by `le`: sorted, and a permutation of `s`. */
  function SortBy<T(!new)>(s: seq<T>, le: (T, T) -> bool): (r: seq<T>)
    ensures |r| == |s|
    ensures multiset(r) == multiset(s)
    ensures TotalPreorder(le) ==> SortedBy(r, le)
  {
    if |s| == 0 then []
    else
      var last := |s| - 1;
      assert s == s[..last] + [s[last]];
      Insert(SortBy(s[..last], le), s[last], le)
  }

  /** `a` and `x` may each come before the other: the sort treats them as a tie. */
  predicate Tied<T>(a: T, x: T, le: (T, T) -> bool) {
    le(a, x) && le(x, a)
  }

  /** The elements of `s` tied with `x`, in their order in `s`. */
  function Ties<T>(s: seq<T>, x: T, le: (T, T) -> bool): (t: seq<T>)
    ensures |t| <= |s|
  {
    if |s| == 0 then []
    else Ties(s[..|s| - 1], x, le) + (if Tied(s[|s| - 1], x, le) then [s[|s| - 1]] else [])
  }

  lemma {:induction false} TiesAppend<T>(a: seq<T>, b: seq<T>, x: T, le: (T, T) -> bool)
    ensures Ties(a + b, x, le) == Ties(a, x, le) + Ties(b, x, le)
  {
    if |b| > 0 {
      var last := |b| - 1;
      assert (a + b)[..|a + b| - 1] == a + b[..last];
      TiesAppend(a, b[..last], x, le);
    } else {
      assert a + b == a;
    }
  }

  /** No element after the insertion point of `y` ties with `y`. */
  lemma NoTieAfterInsertPos<T(!new)>(s: seq<T>, y: T, x: T, le: (T, T) -> bool)
    requires TotalPreorder(le) && SortedBy(s, le) && Tied(y, x, le)
    ensures Ties(s[InsertPos(s, y, le)..], x, le) == []
  {
    var p := InsertPos(s, y, le);
    if p < |s| {
      forall j | p <= j < |s|
        ensures !Tied(s[j], x, le)
      {
        if j > p { assert le(s[p], s[j]); }
      }
      NoTiesIn(s[p..], x, le);
    }
  }

  lemma {:induction false} NoTiesIn<T>(s: seq<T>, x: T, le: (T, T) -> bool)
    requires forall j :: 0 <= j < |s| ==> !Tied(s[j], x, le)
    ensures Ties(s, x, le) == []
  {
    if |s| > 0 {
      NoTiesIn(s[..|s| - 1], x, le);
    }
  }

  lemma TiesSplice<T>(s: seq<T>, p: nat, y: T, x: T, le: (T, T) -> bool)
    requires p <= |s|
    ensures Ties(s, x, le) == Ties(s[..p], x, le) + Ties(s[p..], x, le)
    ensures Ties(s[..p] + [y] + s[p..], x, le)
         == Ties(s[..p], x, le) + Ties([y], x, le) + Ties(s[p..], x, le)
  {
    assert s == s[..p] + s[p..];
    TiesAppend(s[..p], s[p..], x, le);
    TiesAppend(s[..p] + [y], s[p..], x, le);
    TiesAppend(s[..p], [y], x, le);
  }

  /** `SortBy` of a non-empty sequence inserts its last element into the sorted rest. */
  lemma SortBySnoc<T(!new)>(s: seq<T>, le: (T, T) -> bool)
    requires |s| > 0
    ensures var t, y := SortBy(s[..|s| - 1], le), s[|s| - 1];
      var p := InsertPos(t, y, le);
      SortBy(s, le) == t[..p] + [y] + t[p..]
  {
  }

  /** The ties of `y` alone: `y` itself when it ties with `x`. */
  lemma TiesSingle<T>(y: T, x: T, le: (T, T) -> bool)
    ensures Ties([y], x, le) == if Tied(y, x, le) then [y] else []
  {
    assert [y][..0] == [];
  }

  /** Inserting the last element of `s` into `t`, whose ties are those of the rest of `s`. */
  lemma InsertTies<T>(s: seq<T>, t: seq<T>, x: T, le: (T, T) -> bool)
    requires |s| > 0
    requires Ties(t, x, le) == Ties(s[..|s| - 1], x, le)
    requires Tied(s[|s| - 1], x, le) ==> Ties(t[InsertPos(t, s[|s| - 1], le)..], x, le) == []
    ensures var y := s[|s| - 1]; var p := InsertPos(t, y, le);
      Ties(t[..p] + [y] + t[p..], x, le) == Ties(s, x, le)
  {
    var y := s[|s| - 1];
    var p := InsertPos(t, y, le);
    TiesSplice(t, p, y, x, le);
    TiesSingle(y, x, le);
    var own := if Tied(y, x, le) then [y] else [];
    SpliceEmpty(Ties(t[..p], x, le), own, Ties(t[p..], x, le));
  }

  /** Splicing `own` into `before + after` where `own` or `after` is empty. */
  lemma SpliceEmpty<T>(before: seq<T>, own: seq<T>, after: seq<T>)
    requires own == [] || after == []
    ensures before + own + after == (before + after) + own
  {
  }

  /** One insertion step of `SortBy` keeps the ties of the input in order. */
  lemma StableStep<T(!new)>(s: seq<T>, x: T, le: (T, T) -> bool)
    requires |s| > 0
    requires Ties(SortBy(s[..|s| - 1], le), x, le) == Ties(s[..|s| - 1], x, le)
    requires var t, y := SortBy(s[..|s| - 1], le), s[|s| - 1];
      Tied(y, x, le) ==> Ties(t[InsertPos(t, y, le)..], x, le) == []
    ensures Ties(SortBy(s, le), x, le) == Ties(s, x, le)
  {
    SortBySnoc(s, le);
    InsertTies(s, SortBy(s[..|s| - 1], le), x, le);
  }

  /** `SortBy` is stable: elements that tie keep their relative input order. */
  lemma {:induction false} SortByStable<T(!new)>(s: seq<T>, x: T, le: (T, T) -> bool)
    requires TotalPreorder(le)
    ensures Ties(SortBy(s, le), x, le) == Ties(s, x, le)
  {
    if |s| > 0 {
      var last := |s| - 1;
      SortByStable(s[..last], x, le);
      if Tied(s[last], x, le) {
        NoTieAfterInsertPos(SortBy(s[..last], le), s[last], x, le);
      }
      StableStep(s, x, le);
    }
  }
}
