/**
 * Collecting the keys of a map and sorting them (`keys().cloned().collect()`
 * followed by `sort()`), as the converters and the registry do: whatever
 * order the keys are collected in, the result is the unique strictly
 * ascending sequence of them.
 */
module KeyOrder {
  import opened Strings
  import opened Sorting

  predicate StrictlyAscending(s: seq<string>) {
    forall i, j :: 0 <= i < j < |s| ==> StrLt(s[i], s[j])
  }

  lemma StrLeTotalPreorder()
    ensures TotalPreorder(StrLe)
  {
    forall a, b
      ensures StrLe(a, b) || StrLe(b, a)
    {
      StrLeTotal(a, b);
    }
    forall a, b, c | StrLe(a, b) && StrLe(b, c)
      ensures StrLe(a, c)
    {
      StrLeTransitive(a, b, c);
    }
  }

  lemma {:induction false} MinimumExists(keys: set<string>)
    requires keys != {}
    ensures exists m :: m in keys && forall x :: x in keys ==> StrLe(m, x)
    decreases |keys|
  {
    var y :| y in keys;
    if keys == {y} {
      StrLeReflexive(y);
      assert forall x :: x in keys ==> x == y;
    } else {
      MinimumExists(keys - {y});
      var m :| m in keys - {y} && forall x :: x in keys - {y} ==> StrLe(m, x);
      StrLeTotal(m, y);
      if StrLe(m, y) {
        assert forall x :: x in keys ==> StrLe(m, x);
      } else {
        StrLeReflexive(y);
        forall x | x in keys
          ensures StrLe(y, x)
        {
          if x != y {
            StrLeTransitive(y, m, x);
          }
        }
      }
    }
  }

  /** The keys in ascending order. */
  ghost function SortedElems(keys: set<string>): (r: seq<string>)
    ensures StrictlyAscending(r)
    ensures forall x :: x in r <==> x in keys
    ensures |r| == |keys|
    decreases |keys|
  {
    if keys == {} then []
    else
      MinimumExists(keys);
      var m :| m in keys && forall x :: x in keys ==> StrLe(m, x);
      var rest := SortedElems(keys - {m});
      assert forall j :: 0 <= j < |rest| ==> rest[j] in keys - {m};
      [m] + rest
  }

  lemma HeadIsElement(t: seq<string>)
    ensures |t| > 0 ==> t[0] in t
  {
  }

  /** Two strictly ascending sequences with the same elements are equal. */
  lemma {:induction false} AscendingUnique(s: seq<string>, t: seq<string>)
    requires StrictlyAscending(s) && StrictlyAscending(t)
    requires forall x :: x in s <==> x in t
    ensures s == t
    decreases |s|
  {
    if |s| == 0 {
      HeadIsElement(t);
      assert t == [];
    } else {
      assert s[0] in s;
      assert s[0] in t;
      assert t[0] in t;
      var i :| 0 <= i < |s| && s[i] == t[0];
      var j :| 0 <= j < |t| && t[j] == s[0];
      if i > 0 && j > 0 {
        assert StrLt(s[0], s[i]) && StrLt(t[0], t[j]);
        StrLeAntisymmetric(s[0], t[0]);
      }
      assert s[0] == t[0];
      forall x
        ensures x in s[1..] <==> x in t[1..]
      {
        if x in s[1..] {
          var k :| 1 <= k < |s| && s[k] == x;
          assert StrLt(s[0], x);
          assert x in t;
          var l :| 0 <= l < |t| && t[l] == x;
          assert l != 0;
          assert t[1..][l - 1] == x;
        }
        if x in t[1..] {
          var k :| 1 <= k < |t| && t[k] == x;
          assert StrLt(t[0], x);
          assert x in s;
          var l :| 0 <= l < |s| && s[l] == x;
          assert l != 0;
          assert s[1..][l - 1] == x;
        }
      }
      AscendingUnique(s[1..], t[1..]);
      assert s == [s[0]] + s[1..] && t == [t[0]] + t[1..];
    }
  }

  predicate NoRepeats(s: seq<string>) {
    forall i, j :: 0 <= i < j < |s| ==> s[i] != s[j]
  }

  /** The keys of a map in its iteration order, which is unspecified: any enumeration of them. */
  method IterationOrder(keys: set<string>) returns (order: seq<string>)
    ensures NoRepeats(order)
    ensures forall q :: q in order <==> q in keys
  {
    order := [];
    var rest := keys;
    while rest != {}
      invariant rest <= keys
      invariant NoRepeats(order)
      invariant forall q :: q in order <==> q in keys && q !in rest
      decreases |rest|
    {
      var q :| q in rest;
      order := order + [q];
      rest := rest - {q};
    }
  }

  /** Two enumerations of the same keys hold each key once, so they are permutations of each other. */
  lemma SameKeysPermutation(s: seq<string>, t: seq<string>)
    requires NoRepeats(s) && NoRepeats(t)
    requires forall q :: q in s <==> q in t
    ensures multiset(s) == multiset(t)
  {
    forall x
      ensures multiset(s)[x] == multiset(t)[x]
    {
      CountOfNoRepeats(s, x);
      CountOfNoRepeats(t, x);
    }
  }

  /** The keys, collected in an unspecified order and then sorted. */
  method SortedKeys(keys: set<string>) returns (r: seq<string>)
    ensures r == SortedElems(keys)
  {
    StrLeTotalPreorder();
    r := [];
    var rest := keys;
    while rest != {}
      invariant rest <= keys
      invariant SortedBy(r, StrLe)
      invariant NoRepeats(r)
      invariant forall x :: x in r <==> x in keys - rest
      decreases |rest|
    {
      var key :| key in rest;
      var next := Insert(r, key, StrLe);
      assert multiset(next) == multiset(r) + multiset{key};
      forall x
        ensures x in next <==> x in r || x == key
      {
        assert x in next <==> x in multiset(next);
        assert x in r <==> x in multiset(r);
      }
      InsertKeepsNoRepeats(r, key, next);
      r := next;
      rest := rest - {key};
    }
    assert StrictlyAscending(r);
    AscendingUnique(r, SortedElems(keys));
  }

  lemma InsertKeepsNoRepeats(r: seq<string>, key: string, next: seq<string>)
    requires NoRepeats(r) && key !in r
    requires multiset(next) == multiset(r) + multiset{key}
    ensures NoRepeats(next)
  {
    forall x
      ensures multiset(next)[x] <= 1
    {
      CountOfNoRepeats(r, x);
    }
    forall i, j | 0 <= i < j < |next|
      ensures next[i] != next[j]
    {
      assert next == next[..i] + [next[i]] + next[i + 1..];
      assert next[j] in next[i + 1..];
      assert multiset(next)[next[j]] >= multiset(next[i + 1..])[next[j]] + multiset([next[i]])[next[j]];
    }
  }

  lemma {:induction false} CountOfNoRepeats(r: seq<string>, x: string)
    requires NoRepeats(r)
    ensures multiset(r)[x] == if x in r then 1 else 0
  {
    if |r| > 0 {
      var p := r[..|r| - 1];
      assert r == p + [r[|r| - 1]];
      CountOfNoRepeats(p, x);
      if x == r[|r| - 1] {
        assert x !in p;
      }
    }
  }
}
