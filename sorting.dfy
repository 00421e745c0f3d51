/** Python's `list.sort(key=...)` on query results, as the stable insertion sort
    that has the same result (a library call, so it is modelled by value). */
module Sorting {
  import opened Records
  import opened Sequences

  /** The two sort keys the adapters use. */
  datatype SortKey = ByOrder | ByCreated

  /** `a` sorts strictly before `b`. */
  predicate Before(key: SortKey, a: Record, b: Record) {
    match key
    case ByOrder => OrderKey(a) < OrderKey(b)
    case ByCreated => StrLess(CreatedKey(a), CreatedKey(b))
  }

  lemma BeforeIsStrictOrder(key: SortKey, a: Record, b: Record, c: Record)
    ensures !Before(key, a, a)
    ensures Before(key, a, b) && Before(key, b, c) ==> Before(key, a, c)
  {
    if key == ByCreated {
      StrLessIrreflexive(CreatedKey(a));
      if Before(key, a, b) && Before(key, b, c) {
        StrLessTransitive(CreatedKey(a), CreatedKey(b), CreatedKey(c));
      }
    }
  }

  ghost predicate Sorted<K>(key: SortKey, s: seq<Item<K>>) {
    forall i, j :: 0 <= i < j < |s| ==> !Before(key, s[j].rec, s[i].rec)
  }

  /** Puts `x` after every element that does not sort after it, so equal keys keep
      their arrival order. */
  function Insert<K>(key: SortKey, x: Item<K>, s: seq<Item<K>>): (r: seq<Item<K>>)
    ensures |r| == |s| + 1
    ensures multiset(r) == multiset(s) + multiset{x}
  {
    if s == [] then [x]
    else if Before(key, x.rec, s[0].rec) then [x] + s
    else
      assert s == [s[0]] + s[1..];
      [s[0]] + Insert(key, x, s[1..])
  }

  /** The stable sort: each element in turn is inserted into the sorted prefix. */
  function Sort<K>(key: SortKey, s: seq<Item<K>>): (r: seq<Item<K>>)
    ensures |r| == |s|
    ensures multiset(r) == multiset(s)
  {
    if s == [] then []
    else
      assert s == s[..|s| - 1] + [s[|s| - 1]];
      Insert(key, s[|s| - 1], Sort(key, s[..|s| - 1]))
  }

  lemma {:induction false} InsertSorted<K>(key: SortKey, x: Item<K>, s: seq<Item<K>>)
    requires Sorted(key, s)
    ensures Sorted(key, Insert(key, x, s))
  {
    if s != [] {
      var r := Insert(key, x, s);
      if Before(key, x.rec, s[0].rec) {
        forall i, j | 0 <= i < j < |r| ensures !Before(key, r[j].rec, r[i].rec) {
          if i == 0 {
            BeforeIsStrictOrder(key, s[j - 1].rec, x.rec, s[0].rec);
            if j > 1 {
              BeforeIsStrictOrder(key, s[j - 1].rec, s[0].rec, s[0].rec);
            }
          }
        }
      } else {
        InsertSorted(key, x, s[1..]);
        var t := Insert(key, x, s[1..]);
        forall i, j | 0 <= i < j < |r| ensures !Before(key, r[j].rec, r[i].rec) {
          if i == 0 {
            assert r[j] in multiset(t);
            assert r[j] == x || r[j] in multiset(s[1..]);
          }
        }
      }
    }
  }

  lemma {:induction false} SortSorted<K>(key: SortKey, s: seq<Item<K>>)
    ensures Sorted(key, Sort(key, s))
  {
    if s != [] {
      SortSorted(key, s[..|s| - 1]);
      InsertSorted(key, s[|s| - 1], Sort(key, s[..|s| - 1]));
    }
  }

  lemma {:induction false} InsertDistinct<K>(key: SortKey, x: Item<K>, s: seq<Item<K>>)
    requires NoDup(s) && x !in s
    ensures NoDup(Insert(key, x, s))
  {
    if s != [] && !Before(key, x.rec, s[0].rec) {
      var t := s[1..];
      assert NoDup(t);
      InsertDistinct(key, x, t);
      assert s[0] !in multiset(t) + multiset{x};
      assert s[0] !in Insert(key, x, t);
    }
  }

  lemma {:induction false} SortDistinct<K>(key: SortKey, s: seq<Item<K>>)
    requires NoDup(s)
    ensures NoDup(Sort(key, s))
  {
    if s != [] {
      var p := s[..|s| - 1];
      assert NoDup(p);
      SortDistinct(key, p);
      assert s[|s| - 1] !in p;
      assert s[|s| - 1] !in multiset(Sort(key, p));
      InsertDistinct(key, s[|s| - 1], Sort(key, p));
    }
  }

  /** Inserting an element that sorts after none of `s` appends it. */
  lemma {:induction false} InsertAtEnd<K>(key: SortKey, x: Item<K>, s: seq<Item<K>>)
    requires forall i :: 0 <= i < |s| ==> !Before(key, x.rec, s[i].rec)
    ensures Insert(key, x, s) == s + [x]
  {
    if s != [] {
      InsertAtEnd(key, x, s[1..]);
    }
  }

  /** Sorting a list that is already in order leaves it as it is. */
  lemma {:induction false} SortOfSorted<K>(key: SortKey, s: seq<Item<K>>)
    requires Sorted(key, s)
    ensures Sort(key, s) == s
  {
    if s != [] {
      var p := s[..|s| - 1];
      SortOfSorted(key, p);
      InsertAtEnd(key, s[|s| - 1], p);
    }
  }

  /** Sorting keeps the keys of a list: `k` is a key of the sorted list exactly
      when it is a key of the input. */
  lemma SortKeyMembers<K>(key: SortKey, s: seq<Item<K>>, k: K)
    ensures k in Keys(Sort(key, s)) <==> k in Keys(s)
  {
    var r := Sort(key, s);
    if k in Keys(r) {
      var i :| 0 <= i < |r| && Keys(r)[i] == k;
      assert r[i] in multiset(r);
      var j :| 0 <= j < |s| && s[j] == r[i];
      assert Keys(s)[j] == k;
    }
    if k in Keys(s) {
      var j :| 0 <= j < |s| && Keys(s)[j] == k;
      assert s[j] in multiset(r);
      var i :| 0 <= i < |r| && r[i] == s[j];
      assert Keys(r)[i] == k;
    }
  }

  /** Sorting a list whose keys are distinct gives a list whose keys are distinct. */
  lemma SortKeysDistinct<K>(key: SortKey, s: seq<Item<K>>)
    requires NoDup(Keys(s))
    ensures NoDup(Keys(Sort(key, s)))
  {
    var r := Sort(key, s);
    assert NoDup(s) by {
      forall i, j | 0 <= i < j < |s| ensures s[i] != s[j] {
        assert Keys(s)[i] != Keys(s)[j];
      }
    }
    SortDistinct(key, s);
    forall i, j | 0 <= i < j < |r| ensures Keys(r)[i] != Keys(r)[j] {
      assert r[i] in multiset(r) && r[j] in multiset(r);
      var a :| 0 <= a < |s| && s[a] == r[i];
      var b :| 0 <= b < |s| && s[b] == r[j];
      assert a != b;
      assert Keys(s)[a] != Keys(s)[b];
    }
  }

  /** Every sorted element is one of the input's elements. */
  lemma SortMembers<K>(key: SortKey, s: seq<Item<K>>, i: nat)
    requires i < |s|
    ensures Sort(key, s)[i] in s
  {
    assert Sort(key, s)[i] in multiset(Sort(key, s));
  }
}
