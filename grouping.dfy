/**
 * Grouping records by a string key into a `HashMap<String, Vec<_>>` with
 * `entry(key).or_insert_with(Vec::new).push(record)`, as the converters and
 * the TREC run validator do: each group keeps its records in input order.
 */
module Grouping {
  import opened KeyOrder

  /** The distinct keys of the records. */
  function KeySet<T>(data: seq<T>, key: T -> string): set<string> {
    set i | 0 <= i < |data| :: key(data[i])
  }

  /** The records with key `q`, in input order. */
  function GroupOf<T>(data: seq<T>, key: T -> string, q: string): seq<T> {
    if |data| == 0 then []
    else GroupOf(data[..|data| - 1], key, q) + (if key(data[|data| - 1]) == q then [data[|data| - 1]] else [])
  }

  lemma KeySetSnoc<T>(data: seq<T>, key: T -> string, i: nat)
    requires i < |data|
    ensures KeySet(data[..i + 1], key) == KeySet(data[..i], key) + {key(data[i])}
  {
    var p := data[..i + 1];
    assert p[i] == data[i];
    forall q | q in KeySet(p, key)
      ensures q in KeySet(data[..i], key) + {key(data[i])}
    {
      var j :| 0 <= j < |p| && key(p[j]) == q;
      if j < i {
        assert data[..i][j] == p[j];
      }
    }
  }

  lemma {:induction false} KeySetOfPrefix<T>(data: seq<T>, key: T -> string)
    requires |data| > 0
    ensures KeySet(data, key) == KeySet(data[..|data| - 1], key) + {key(data[|data| - 1])}
  {
    KeySetSnoc(data, key, |data| - 1);
    assert data[..|data|] == data;
  }

  lemma {:induction false} GroupOfAbsent<T>(data: seq<T>, key: T -> string, q: string)
    requires q !in KeySet(data, key)
    ensures GroupOf(data, key, q) == []
  {
    if |data| > 0 {
      KeySetOfPrefix(data, key);
      GroupOfAbsent(data[..|data| - 1], key, q);
    }
  }

  /** The grouping loop. */
  method GroupBy<T>(data: seq<T>, key: T -> string) returns (groups: map<string, seq<T>>)
    ensures groups.Keys == KeySet(data, key)
    ensures forall q :: q in groups ==> groups[q] == GroupOf(data, key, q)
  {
    groups := map[];
    for i := 0 to |data|
      invariant groups.Keys == KeySet(data[..i], key)
      invariant forall q :: q in groups ==> groups[q] == GroupOf(data[..i], key, q)
    {
      var record := data[i];
      var k := key(record);
      var group := if k in groups then groups[k] else [];
      var next := groups[k := group + [record]];
      GroupByStep(data, key, i, groups, next);
      groups := next;
    }
    assert data[..|data|] == data;
  }

  /** One iteration of the grouping loop keeps its invariant. */
  lemma GroupByStep<T>(data: seq<T>, key: T -> string, i: nat, groups: map<string, seq<T>>, next: map<string, seq<T>>)
    requires i < |data|
    requires groups.Keys == KeySet(data[..i], key)
    requires forall q :: q in groups ==> groups[q] == GroupOf(data[..i], key, q)
    requires next == groups[key(data[i]) := (if key(data[i]) in groups then groups[key(data[i])] else []) + [data[i]]]
    ensures next.Keys == KeySet(data[..i + 1], key)
    ensures forall q :: q in next ==> next[q] == GroupOf(data[..i + 1], key, q)
  {
    var k := key(data[i]);
    assert data[..i + 1][..i] == data[..i];
    KeySetSnoc(data, key, i);
    if k !in groups {
      GroupOfAbsent(data[..i], key, k);
    }
  }

  /** A group holds exactly the records with its key, as often as the input does. */
  lemma {:induction false} GroupOfExact<T>(data: seq<T>, key: T -> string, q: string)
    ensures forall e :: multiset(GroupOf(data, key, q))[e] == if key(e) == q then multiset(data)[e] else 0
  {
    if |data| > 0 {
      var p := data[..|data| - 1];
      GroupOfExact(p, key, q);
      assert data == p + [data[|data| - 1]];
    }
  }

  /** Summed sizes of the groups of the keys `qs`. */
  function GroupSizes<T>(qs: seq<string>, data: seq<T>, key: T -> string): nat {
    if |qs| == 0 then 0 else GroupSizes(qs[..|qs| - 1], data, key) + |GroupOf(data, key, qs[|qs| - 1])|
  }

  lemma {:induction false} GroupSizesSnoc<T>(qs: seq<string>, data: seq<T>, key: T -> string, e: T)
    requires NoRepeats(qs)
    ensures GroupSizes(qs, data + [e], key) == GroupSizes(qs, data, key) + (if key(e) in qs then 1 else 0)
  {
    assert (data + [e])[..|data|] == data;
    if |qs| > 0 {
      var p := qs[..|qs| - 1];
      assert forall i :: 0 <= i < |p| ==> p[i] == qs[i];
      GroupSizesSnoc(p, data, key, e);
      if key(e) == qs[|qs| - 1] {
        assert key(e) !in p;
      }
      assert key(e) in qs <==> key(e) in p || key(e) == qs[|qs| - 1];
    }
  }

  lemma {:induction false} GroupSizesEmpty<T>(qs: seq<string>, data: seq<T>, key: T -> string)
    requires |data| == 0
    ensures GroupSizes(qs, data, key) == 0
  {
    if |qs| > 0 {
      GroupSizesEmpty(qs[..|qs| - 1], data, key);
    }
  }

  /** Grouping by keys that cover every record loses and duplicates nothing. */
  lemma {:induction false} GroupSizesCover<T>(qs: seq<string>, data: seq<T>, key: T -> string)
    requires NoRepeats(qs)
    requires forall q :: q in KeySet(data, key) ==> q in qs
    ensures GroupSizes(qs, data, key) == |data|
  {
    if |data| == 0 {
      GroupSizesEmpty(qs, data, key);
    } else {
      var p := data[..|data| - 1];
      var e := data[|data| - 1];
      assert data == p + [e];
      KeySetOfPrefix(data, key);
      GroupSizesCover(qs, p, key);
      GroupSizesSnoc(qs, p, key, e);
    }
  }

  /** There are at least one and at most as many keys as records. */
  lemma {:induction false} KeySetBounds<T>(data: seq<T>, key: T -> string)
    ensures |KeySet(data, key)| <= |data|
    ensures |data| > 0 ==> |KeySet(data, key)| >= 1
  {
    if |data| > 0 {
      KeySetOfPrefix(data, key);
      KeySetBounds(data[..|data| - 1], key);
    }
  }
}
