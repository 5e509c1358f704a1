/**
 * The dataset registry of `evals/src/dataset_registry.rs`: a table of known
 * evaluation datasets keyed by name, with lookups by name, priority and
 * category, and two sorted listings.
 *
 * An entry keeps the fields the registry's operations read (name, priority,
 * category); its descriptive metadata is outside this model.
 */
module DatasetRegistry {
  import opened Wrappers
  import opened Strings
  import opened Sorting
  import opened KeyOrder

  datatype Category = General | Multilingual | DomainSpecific | QuestionAnswering | Regional | Specialized

  /** `DatasetEntry`; `priority` is a `u8` holding 1 to 7 in the built-in table. */
  datatype Entry = Entry(name: string, priority: nat, category: Category)

  /** The entries `DatasetRegistry::new` adds, in the order it adds them. */
  function Builtin(): seq<Entry> {
    [ Entry("msmarco-passage", 1, General),
      Entry("beir", 1, General),
      Entry("trec-dl-2023", 2, General),
      Entry("lotte", 2, General),
      Entry("miracl", 3, Multilingual),
      Entry("mteb", 3, Multilingual),
      Entry("legalbench-rag", 4, DomainSpecific),
      Entry("fiqa", 4, DomainSpecific),
      Entry("bioasq", 4, DomainSpecific),
      Entry("scifact-open", 4, DomainSpecific),
      Entry("hotpotqa", 5, QuestionAnswering),
      Entry("natural-questions", 5, QuestionAnswering),
      Entry("squad", 5, QuestionAnswering),
      Entry("fire", 6, Regional),
      Entry("clef", 6, Regional),
      Entry("ntcir", 6, Regional),
      Entry("fultr", 7, Specialized),
      Entry("trec-covid", 7, DomainSpecific),
      Entry("ifir", 7, Specialized),
      Entry("antique", 7, QuestionAnswering) ]
  }

  /** The table after inserting `entries` in turn, each under its own name. */
  function RegisterAll(entries: seq<Entry>): map<string, Entry> {
    if |entries| == 0 then map[]
    else
      var last := entries[|entries| - 1];
      RegisterAll(entries[..|entries| - 1])[last.name := last]
  }

  /** Every entry is filed under its own name. */
  ghost predicate KeyedByName(m: map<string, Entry>) {
    forall n :: n in m ==> m[n].name == n
  }

  /** No two entries of `s` share a name. */
  predicate NamesDistinct(s: seq<Entry>) {
    forall i, j :: 0 <= i < j < |s| ==> s[i].name != s[j].name
  }

  /** `a.priority.cmp(&b.priority).then_with(|| a.name.cmp(&b.name))`, as "may come before". */
  predicate EntryLe(a: Entry, b: Entry) {
    a.priority < b.priority || (a.priority == b.priority && StrLe(a.name, b.name))
  }

  /** Strictly before in (priority, name) order. */
  predicate EntryLt(a: Entry, b: Entry) {
    a.priority < b.priority || (a.priority == b.priority && StrLt(a.name, b.name))
  }

  /** The entries of `s` that `keep` accepts, in order. */
  function Where(s: seq<Entry>, keep: Entry -> bool): (r: seq<Entry>)
    ensures forall e :: e in r <==> e in s && keep(e)
    ensures NamesDistinct(s) ==> NamesDistinct(r)
  {
    if |s| == 0 then []
    else
      var rest := Where(s[1..], keep);
      assert forall e :: e in rest ==> e in s[1..];
      assert NamesDistinct(s) ==> forall e :: e in s[1..] ==> e.name != s[0].name;
      if keep(s[0]) then [s[0]] + rest else rest
  }

  class Registry {
    var datasets: map<string, Entry>

    ghost predicate Valid()
      reads this
    {
      KeyedByName(datasets)
    }

    /** `DatasetRegistry::new`: the built-in entries, added one after another. */
    constructor ()
      ensures Valid()
      ensures datasets == RegisterAll(Builtin())
    {
      datasets := map[];
      new;
      var table := Builtin();
      for i := 0 to |table|
        invariant Valid()
        invariant datasets == RegisterAll(table[..i])
      {
        assert table[..i + 1][..i] == table[..i];
        AddDataset(table[i]);
      }
      assert table[..|table|] == table;
    }

    /** `add_dataset`: file the entry under its name, replacing any entry of that name. */
    method AddDataset(entry: Entry)
      requires Valid()
      modifies this
      ensures Valid()
      ensures datasets == old(datasets)[entry.name := entry]
    {
      datasets := datasets[entry.name := entry];
    }

    /** `get`: the entry registered under `name`, if any. */
    function Get(name: string): (r: Option<Entry>)
      reads this
      requires Valid()
      ensures r.Some? <==> name in datasets
      ensures r.Some? ==> r.value.name == name && r.value in datasets.Values
    {
      if name in datasets then Some(datasets[name]) else None
    }

    /** The entries in the map's iteration order, which is unspecified: each entry once. */
    method Values() returns (vs: seq<Entry>)
      requires Valid()
      ensures NamesDistinct(vs)
      ensures forall e :: e in vs <==> e in datasets.Values
    {
      var d := datasets;
      var order := IterationOrder(d.Keys);
      vs := seq(|order|, i requires 0 <= i < |order| => d[order[i]]);
      assert forall i :: 0 <= i < |order| ==> vs[i].name == order[i];
      forall e | e in d.Values
        ensures e in vs
      {
        var n :| n in d && d[n] == e;
        var i :| 0 <= i < |order| && order[i] == n;
        assert vs[i] == e;
      }
    }

    /** `by_priority`: exactly the entries of priority `priority`, each once, in unspecified order. */
    method ByPriority(priority: nat) returns (r: seq<Entry>)
      requires Valid()
      ensures NamesDistinct(r)
      ensures forall e :: e in r <==> e in datasets.Values && e.priority == priority
    {
      var vs := Values();
      r := Where(vs, (e: Entry) => e.priority == priority);
    }

    /** `by_category`: exactly the entries of category `category`, each once, in unspecified order. */
    method ByCategory(category: Category) returns (r: seq<Entry>)
      requires Valid()
      ensures NamesDistinct(r)
      ensures forall e :: e in r <==> e in datasets.Values && e.category == category
    {
      var vs := Values();
      r := Where(vs, (e: Entry) => e.category == category);
    }

    /** `list_names`: every registered name once, in ascending order. */
    method ListNames() returns (names: seq<string>)
      ensures StrictlyAscending(names)
      ensures forall n :: n in names <==> n in datasets
    {
      names := SortedKeys(datasets.Keys);
    }

    /** `all`: every entry once, in strictly increasing (priority, name) order. */
    method All() returns (entries: seq<Entry>)
      requires Valid()
      ensures forall e :: e in entries <==> e in datasets.Values
      ensures forall i, j :: 0 <= i < j < |entries| ==> EntryLt(entries[i], entries[j])
    {
      var vs := Values();
      EntryLeTotalPreorder();
      entries := SortBy(vs, EntryLe);
      SortedDistinctIsStrict(vs, entries);
    }
  }

  lemma EntryLeTotalPreorder()
    ensures TotalPreorder(EntryLe)
  {
    forall a, b
      ensures EntryLe(a, b) || EntryLe(b, a)
    {
      StrLeTotal(a.name, b.name);
    }
    forall a, b, c | EntryLe(a, b) && EntryLe(b, c)
      ensures EntryLe(a, c)
    {
      if a.priority == b.priority == c.priority {
        StrLeTransitive(a.name, b.name, c.name);
      }
    }
  }

  /** A sort of entries with distinct names holds each once, strictly ordered. */
  lemma SortedDistinctIsStrict(vs: seq<Entry>, entries: seq<Entry>)
    requires NamesDistinct(vs)
    requires multiset(entries) == multiset(vs)
    requires SortedBy(entries, EntryLe)
    ensures forall e :: e in entries <==> e in vs
    ensures forall i, j :: 0 <= i < j < |entries| ==> EntryLt(entries[i], entries[j])
  {
    forall e
      ensures e in entries <==> e in vs
    {
      assert e in entries <==> e in multiset(entries);
      assert e in vs <==> e in multiset(vs);
    }
    forall i, j | 0 <= i < j < |entries|
      ensures EntryLt(entries[i], entries[j])
    {
      assert entries[i] in vs && entries[j] in vs;
      var a :| 0 <= a < |vs| && vs[a] == entries[i];
      var b :| 0 <= b < |vs| && vs[b] == entries[j];
      if a == b {
        TwiceInSortedIsRepeat(vs, entries, i, j);
      }
    }
  }

  /** Two positions of a permutation of `vs` cannot hold the same entry when `vs` repeats none. */
  lemma TwiceInSortedIsRepeat(vs: seq<Entry>, entries: seq<Entry>, i: nat, j: nat)
    requires NamesDistinct(vs)
    requires multiset(entries) == multiset(vs)
    requires 0 <= i < j < |entries|
    ensures entries[i] != entries[j]
  {
    if entries[i] == entries[j] {
      var e := entries[i];
      assert entries == entries[..i] + [e] + entries[i + 1..];
      assert e in entries[i + 1..];
      assert multiset(entries)[e] >= 2;
      CountOfDistinct(vs, e);
      assert false;
    }
  }

  /** In a sequence with distinct names, an entry occurs at most once. */
  lemma {:induction false} CountOfDistinct(vs: seq<Entry>, e: Entry)
    requires NamesDistinct(vs)
    ensures multiset(vs)[e] <= 1
  {
    if |vs| > 0 {
      var p := vs[..|vs| - 1];
      assert vs == p + [vs[|vs| - 1]];
      CountOfDistinct(p, e);
      if e == vs[|vs| - 1] {
        assert e !in p;
      }
    }
  }

  // ─── Properties of the table ──────────────────────────────────────────────

  /** Inserting entries one by one keeps every entry under its own name. */
  lemma {:induction false} RegisterAllKeyedByName(entries: seq<Entry>)
    ensures KeyedByName(RegisterAll(entries))
  {
    if |entries| > 0 {
      RegisterAllKeyedByName(entries[..|entries| - 1]);
    }
  }

  /** Some entry of `entries` is named `n`. */
  predicate Named(entries: seq<Entry>, n: string) {
    exists i :: 0 <= i < |entries| && entries[i].name == n
  }

  /** The registered names are exactly the names of the inserted entries. */
  lemma {:induction false} RegisterAllNames(entries: seq<Entry>)
    ensures forall n :: n in RegisterAll(entries) <==> Named(entries, n)
  {
    if |entries| > 0 {
      var front := entries[..|entries| - 1];
      RegisterAllNames(front);
      forall n | Named(front, n)
        ensures Named(entries, n)
      {
        var i :| 0 <= i < |front| && front[i].name == n;
        assert entries[i].name == n;
      }
      forall n | Named(entries, n)
        ensures n in RegisterAll(entries)
      {
        var i :| 0 <= i < |entries| && entries[i].name == n;
        if i < |front| {
          assert front[i].name == n;
        }
      }
    }
  }

  /** An entry no later entry renames over is what its name looks up: later entries of the same name replace earlier ones. */
  lemma {:induction false} LastOfNameWins(entries: seq<Entry>, i: nat)
    requires i < |entries|
    requires forall j :: i < j < |entries| ==> entries[j].name != entries[i].name
    ensures entries[i].name in RegisterAll(entries)
    ensures RegisterAll(entries)[entries[i].name] == entries[i]
  {
    if i < |entries| - 1 {
      var front := entries[..|entries| - 1];
      LastOfNameWins(front, i);
    }
  }

  /** `test_registry_creation`, `test_by_priority`, `test_by_category`: the new registry knows "msmarco-passage" (priority 1) and "beir", and holds a multilingual entry. */
  lemma NewRegistryLookups(table: seq<Entry>)
    requires table == Builtin()
    ensures "msmarco-passage" in RegisterAll(table) && RegisterAll(table)["msmarco-passage"].priority == 1
    ensures "beir" in RegisterAll(table)
    ensures "miracl" in RegisterAll(table) && RegisterAll(table)["miracl"].category == Multilingual
  {
    assert table[0].name == "msmarco-passage";
    assert table[1].name == "beir";
    assert table[4].name == "miracl";
    LastOfNameWins(table, 0);
    LastOfNameWins(table, 1);
    LastOfNameWins(table, 4);
  }
}
