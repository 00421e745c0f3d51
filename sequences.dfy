/** Facts about Python lists used by the adapters: duplicate-free lists, the
    position a key last occupies, the filter that drops one key, and `list.insert`. */
module Sequences {

  ghost predicate NoDup<T>(s: seq<T>) {
    forall i, j :: 0 <= i < j < |s| ==> s[i] != s[j]
  }

  /** The index of the last occurrence of `x`: when a loop writes one record per
      list entry, this is the write that survives. */
  function LastIndex<T(==)>(s: seq<T>, x: T): (r: nat)
    requires x in s
    ensures r < |s| && s[r] == x
    ensures forall j :: r < j < |s| ==> s[j] != x
  {
    if s[|s| - 1] == x then |s| - 1 else LastIndex(s[..|s| - 1], x)
  }

  lemma LastIndexOfDistinct<T>(s: seq<T>, i: int)
    requires NoDup(s) && 0 <= i < |s|
    ensures LastIndex(s, s[i]) == i
  {
  }

  /** Where the last occurrence lies in a concatenation. */
  lemma {:induction false} LastIndexAppend<T>(a: seq<T>, b: seq<T>, x: T)
    requires x in a + b
    ensures x in b ==> LastIndex(a + b, x) == |a| + LastIndex(b, x)
    ensures x !in b ==> x in a && LastIndex(a + b, x) == LastIndex(a, x)
    decreases |b|
  {
    if b != [] {
      var ab := a + b;
      assert ab[..|ab| - 1] == a + b[..|b| - 1];
      if b[|b| - 1] != x {
        if x in ab[..|ab| - 1] {
          LastIndexAppend(a, b[..|b| - 1], x);
        }
        assert x in b <==> x in b[..|b| - 1];
      }
    } else {
      assert a + b == a;
    }
  }

  /** `[c for c in s if c != x]`. */
  function Without<T(==)>(s: seq<T>, x: T): (r: seq<T>)
    ensures forall j :: 0 <= j < |r| ==> r[j] in s && r[j] != x
    ensures forall j :: 0 <= j < |s| && s[j] != x ==> s[j] in r
    ensures x !in s ==> r == s
    ensures NoDup(s) ==> NoDup(r)
    ensures |r| <= |s|
  {
    if s == [] then []
    else if s[0] == x then Without(s[1..], x)
    else [s[0]] + Without(s[1..], x)
  }

  lemma {:induction false} WithoutOfDistinct<T>(s: seq<T>, x: T)
    requires NoDup(s) && x in s
    ensures |Without(s, x)| == |s| - 1
  {
    if s[0] != x {
      assert x in s[1..];
      WithoutOfDistinct(s[1..], x);
    } else {
      assert x !in s[1..];
    }
  }

  /** Where `list.insert(i, x)` puts `x` in a list of length `n`: a negative index
      counts from the end, and the result is clamped to `0..n`. */
  function InsertIndex(n: nat, i: int): (p: nat)
    ensures p <= n
    ensures 0 <= i <= n ==> p == i
    ensures i > n ==> p == n
    ensures -(n as int) <= i < 0 ==> p == i + n
    ensures i < -(n as int) ==> p == 0
  {
    if i < 0 then (if i + n < 0 then 0 else i + n) else if i > n then n else i
  }

  /** Python's `s.insert(i, x)`. */
  function PyInsert<T>(s: seq<T>, i: int, x: T): (r: seq<T>)
    ensures |r| == |s| + 1
    ensures r[InsertIndex(|s|, i)] == x
    ensures forall j :: 0 <= j < InsertIndex(|s|, i) ==> r[j] == s[j]
    ensures forall j :: InsertIndex(|s|, i) < j < |r| ==> r[j] == s[j - 1]
  {
    var p := InsertIndex(|s|, i);
    s[..p] + [x] + s[p..]
  }

  lemma PyInsertMembers<T>(s: seq<T>, i: int, x: T)
    ensures forall y :: y in PyInsert(s, i, x) <==> y == x || y in s
  {
    var r := PyInsert(s, i, x);
    var p := InsertIndex(|s|, i);
    forall y | y in s ensures y in r {
      var j :| 0 <= j < |s| && s[j] == y;
      if j < p { assert r[j] == y; } else { assert r[j + 1] == y; }
    }
  }

  lemma PyInsertDistinct<T>(s: seq<T>, i: int, x: T)
    requires NoDup(s) && x !in s
    ensures NoDup(PyInsert(s, i, x))
  {
    var r := PyInsert(s, i, x);
    var p := InsertIndex(|s|, i);
    forall a, b | 0 <= a < b < |r| ensures r[a] != r[b] {
      if a == p { assert r[b] == s[b - 1]; }
      else if b == p { assert r[a] == s[a]; }
    }
  }

  /** A duplicate-free list has as many members as entries. */
  lemma {:induction false} DistinctCard<T>(s: seq<T>)
    requires NoDup(s)
    ensures |set x | x in s| == |s|
  {
    if s != [] {
      var t := s[1..];
      assert NoDup(t);
      DistinctCard(t);
      assert (set x | x in s) == {s[0]} + (set x | x in t);
      assert s[0] !in (set x | x in t);
    }
  }

  /** Two duplicate-free lists with the same members have the same length. */
  lemma SameMembersSameLength<T>(a: seq<T>, b: seq<T>)
    requires NoDup(a) && NoDup(b)
    requires forall x :: x in a <==> x in b
    ensures |a| == |b|
  {
    DistinctCard(a);
    DistinctCard(b);
    assert (set x | x in a) == (set x | x in b);
  }

  /** The head of a duplicate-free list does not recur in its tail, and the
      tail is duplicate-free. */
  lemma NoDupTail<T>(s: seq<T>)
    requires NoDup(s) && s != []
    ensures s[0] !in s[1..] && NoDup(s[1..])
  {
    assert forall j :: 0 <= j < |s[1..]| ==> s[1..][j] == s[j + 1];
  }

  /** Two duplicate-free lists with no member in common concatenate to a
      duplicate-free list. */
  lemma NoDupConcat<T>(a: seq<T>, b: seq<T>)
    requires NoDup(a) && NoDup(b)
    requires forall x :: x in a ==> x !in b
    ensures NoDup(a + b)
  {
    forall i, j | 0 <= i < j < |a + b| ensures (a + b)[i] != (a + b)[j] {
      if i < |a| && j >= |a| {
        assert (a + b)[i] in a && (a + b)[j] in b;
      }
    }
  }
}
