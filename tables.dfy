/** The indexed table: a map from key to item and the enumeration order in which
    scans and secondary-index queries return items. DynamoDB leaves that order
    open; the model fixes it to `keys`, the order in which keys were first
    written. */
module Tables {
  import opened Records
  import opened Sequences
  import opened Sorting

  /** What a query or a filtered scan selects: the by-kind index, the by-column
      index (cards of a column) or the by-board index (columns of a board). */
  datatype Selector = OfKind(kind: Kind) | CardsOf(columnId: string) | ColumnsOf(boardId: string)

  predicate Matches(r: Record, s: Selector) {
    match s
    case OfKind(k) => r.kind == Some(k)
    case CardsOf(c) => r.kind == Some(Card) && r.columnId == Some(c)
    case ColumnsOf(b) => r.kind == Some(Column) && r.boardId == Some(b)
  }

  /** `keys` lists every key of `items` exactly once. */
  ghost predicate Enumerates<K(!new)>(items: map<K, Record>, keys: seq<K>) {
    NoDup(keys) && forall k :: k in items <==> k in keys
  }

  /** The items a query returns, in enumeration order. */
  function Select<K(!new)>(items: map<K, Record>, keys: seq<K>, s: Selector): (r: seq<Item<K>>)
    ensures |r| <= |keys|
    ensures forall i :: 0 <= i < |r| ==> r[i].key in keys && r[i].key in items && r[i].rec == items[r[i].key] && Matches(r[i].rec, s)
  {
    if keys == [] then []
    else
      var rest := Select(items, keys[1..], s);
      if keys[0] in items && Matches(items[keys[0]], s) then [Item(keys[0], items[keys[0]])] + rest else rest
  }

  /** A query returns every enumerated item it matches, each once. */
  lemma {:induction false} SelectComplete<K(!new)>(items: map<K, Record>, keys: seq<K>, s: Selector)
    ensures forall k :: k in keys && k in items && Matches(items[k], s) ==> k in Keys(Select(items, keys, s))
    ensures NoDup(keys) ==> NoDup(Keys(Select(items, keys, s)))
  {
    if keys != [] {
      var rest := Select(items, keys[1..], s);
      SelectComplete(items, keys[1..], s);
      assert forall k :: k in keys && k != keys[0] ==> k in keys[1..];
      assert NoDup(keys) ==> keys[0] !in Keys(rest) && NoDup(keys[1..]);
      if keys[0] in items && Matches(items[keys[0]], s) {
        var r := [Item(keys[0], items[keys[0]])] + rest;
        assert Select(items, keys, s) == r;
        KeysAppend([Item(keys[0], items[keys[0]])], rest);
        assert Keys(r) == [keys[0]] + Keys(rest);
      } else {
        assert Select(items, keys, s) == rest;
      }
    }
  }

  /** A query over a duplicate-free enumeration lists each key once. */
  lemma SelectDistinct<K(!new)>(items: map<K, Record>, keys: seq<K>, s: Selector)
    requires NoDup(keys)
    ensures NoDup(Keys(Select(items, keys, s)))
  {
    SelectComplete(items, keys, s);
  }

  /** A query sees the same entries, in the same order, in two states that agree
      on which enumerated keys are present and which of them match. */
  lemma SelectFrame<K(!new)>(m1: map<K, Record>, m2: map<K, Record>, keys: seq<K>, s: Selector)
    requires forall k :: k in keys ==> (k in m1 <==> k in m2)
    requires forall k :: k in keys && k in m1 ==> (Matches(m1[k], s) <==> Matches(m2[k], s))
    ensures Keys(Select(m2, keys, s)) == Keys(Select(m1, keys, s))
    ensures |Select(m2, keys, s)| == |Select(m1, keys, s)|
    ensures forall i :: 0 <= i < |Select(m1, keys, s)| ==> Select(m2, keys, s)[i].key == Select(m1, keys, s)[i].key
  {
    SelectFrameKeys(m1, m2, keys, s);
    var a := Select(m1, keys, s);
    var b := Select(m2, keys, s);
    assert |Keys(a)| == |a| && |Keys(b)| == |b|;
    forall i | 0 <= i < |a| ensures b[i].key == a[i].key {
      assert Keys(b)[i] == Keys(a)[i];
    }
  }

  /** The key lists agree, by induction on the enumeration. */
  lemma {:induction false} SelectFrameKeys<K(!new)>(m1: map<K, Record>, m2: map<K, Record>, keys: seq<K>, s: Selector)
    requires forall k :: k in keys ==> (k in m1 <==> k in m2)
    requires forall k :: k in keys && k in m1 ==> (Matches(m1[k], s) <==> Matches(m2[k], s))
    ensures Keys(Select(m2, keys, s)) == Keys(Select(m1, keys, s))
  {
    if keys != [] {
      var k := keys[0];
      assert forall x :: x in keys[1..] ==> x in keys;
      SelectFrameKeys(m1, m2, keys[1..], s);
      if k in m1 && Matches(m1[k], s) {
        KeysAppend([Item(k, m1[k])], Select(m1, keys[1..], s));
        KeysAppend([Item(k, m2[k])], Select(m2, keys[1..], s));
      }
    }
  }

  /** The same, when moreover every matching item is unchanged: the query result
      is identical. */
  lemma SelectUnchanged<K(!new)>(m1: map<K, Record>, m2: map<K, Record>, keys: seq<K>, s: Selector)
    requires forall k :: k in keys ==> (k in m1 <==> k in m2)
    requires forall k :: k in keys && k in m1 ==> (Matches(m1[k], s) <==> Matches(m2[k], s))
    requires forall k :: k in keys && k in m1 && Matches(m1[k], s) ==> m2[k] == m1[k]
    ensures Select(m2, keys, s) == Select(m1, keys, s)
  {
    SelectFrame(m1, m2, keys, s);
  }

  /** A query over two stretches of the enumeration is the two queries, joined. */
  lemma {:induction false} SelectConcat<K(!new)>(m: map<K, Record>, a: seq<K>, b: seq<K>, s: Selector)
    ensures Select(m, a + b, s) == Select(m, a, s) + Select(m, b, s)
  {
    if a == [] {
      assert a + b == b;
    } else {
      assert (a + b)[1..] == a[1..] + b;
      SelectConcat(m, a[1..], b, s);
    }
  }

  /** The entries of `ks` that `m` still holds, in their order. */
  function Restrict<K(!new)>(ks: seq<K>, m: map<K, Record>): (r: seq<K>)
    ensures forall k :: k in r <==> k in ks && k in m
  {
    if ks == [] then []
    else if ks[0] in m then [ks[0]] + Restrict(ks[1..], m)
    else Restrict(ks[1..], m)
  }

  /** Deleting one more key drops it from the restricted enumeration. */
  lemma {:induction false} RestrictWithout<K(!new)>(ks: seq<K>, m: map<K, Record>, k: K)
    ensures Without(Restrict(ks, m), k) == Restrict(ks, m - {k})
  {
    if ks != [] {
      RestrictWithout(ks[1..], m, k);
    }
  }

  /** An enumeration restricted to the map it enumerates is itself. */
  lemma {:induction false} RestrictEnumeration<K(!new)>(ks: seq<K>, m: map<K, Record>)
    requires forall i :: 0 <= i < |ks| ==> ks[i] in m
    ensures Restrict(ks, m) == ks
  {
    if ks != [] {
      RestrictEnumeration(ks[1..], m);
    }
  }

  /** Restricting twice, the second time to a smaller map, is restricting once. */
  lemma {:induction false} RestrictRestrict<K(!new)>(ks: seq<K>, m1: map<K, Record>, m2: map<K, Record>)
    requires forall k :: k in m2 ==> k in m1
    ensures Restrict(Restrict(ks, m1), m2) == Restrict(ks, m2)
  {
    if ks != [] {
      RestrictRestrict(ks[1..], m1, m2);
    }
  }

  /** A restricted duplicate-free enumeration stays duplicate-free. */
  lemma {:induction false} RestrictDistinct<K(!new)>(ks: seq<K>, m: map<K, Record>)
    requires NoDup(ks)
    ensures NoDup(Restrict(ks, m))
  {
    if ks != [] {
      assert ks[0] !in ks[1..];
      RestrictDistinct(ks[1..], m);
    }
  }

  /** Writing a key not yet enumerated appends it to the enumeration, and to a
      query's result exactly when the new item matches. */
  lemma SelectPutNew<K(!new)>(m: map<K, Record>, ks: seq<K>, k: K, r: Record, s: Selector)
    requires k !in ks
    ensures Select(m[k := r], ks + [k], s) == Select(m, ks, s) + (if Matches(r, s) then [Item(k, r)] else [])
  {
    SelectConcat(m[k := r], ks, [k], s);
    SelectUnchanged(m, m[k := r], ks, s);
  }

  /** Dropping a key from a list that starts with `x`. */
  lemma DropKeyCons<K>(x: Item<K>, r: seq<Item<K>>, k: K)
    ensures DropKey([x] + r, k) == if x.key == k then DropKey(r, k) else [x] + DropKey(r, k)
  {
    assert ([x] + r)[1..] == r;
  }

  /** Deleting a key and dropping it from the enumeration drops it from every
      query's result and leaves the other entries as they were. */
  lemma {:induction false} SelectDelete<K(!new)>(m: map<K, Record>, ks: seq<K>, k: K, s: Selector)
    ensures Select(m - {k}, Without(ks, k), s) == DropKey(Select(m, ks, s), k)
  {
    if ks != [] {
      var a := ks[0];
      SelectDelete(m, ks[1..], k, s);
      if a in m && Matches(m[a], s) {
        DropKeyCons(Item(a, m[a]), Select(m, ks[1..], s), k);
      }
      if a != k {
        assert Without(ks, k) == [a] + Without(ks[1..], k);
        SelectCons(m - {k}, a, Without(ks[1..], k), s);
      }
    }
  }

  /** A query over an enumeration that starts with `a`. */
  lemma SelectCons<K(!new)>(m: map<K, Record>, a: K, ks: seq<K>, s: Selector)
    ensures Select(m, [a] + ks, s) == if a in m && Matches(m[a], s) then [Item(a, m[a])] + Select(m, ks, s) else Select(m, ks, s)
  {
    assert ([a] + ks)[1..] == ks;
  }

  /** A query over an enumeration restricted to the map it reads sees what the
      query over the whole enumeration sees. */
  lemma {:induction false} SelectRestrict<K(!new)>(m: map<K, Record>, ks: seq<K>, s: Selector)
    ensures Select(m, Restrict(ks, m), s) == Select(m, ks, s)
  {
    if ks != [] {
      SelectRestrict(m, ks[1..], s);
      if ks[0] in m {
        assert ([ks[0]] + Restrict(ks[1..], m))[1..] == Restrict(ks[1..], m);
      }
    }
  }

  /** Deleting items none of which matches a query leaves its result as it was. */
  lemma {:induction false} SelectSubmap<K(!new)>(m: map<K, Record>, r: map<K, Record>, ks: seq<K>, s: Selector)
    requires forall k :: k in r ==> k in m && r[k] == m[k]
    requires forall k :: k in ks && k in m && Matches(m[k], s) ==> k in r
    ensures Select(r, ks, s) == Select(m, ks, s)
  {
    if ks != [] {
      SelectSubmap(m, r, ks[1..], s);
    }
  }

  /** `update_item(SET order = o, updated_at = now[, column_id = c])` on one record. */
  function Renumbered(r: Record, o: int, col: Option<string>, now: string): Record {
    r.(order := Some(o), updatedAt := Some(now), columnId := if col.Some? then col else r.columnId)
  }

  /** The loop `for index, c in enumerate(xs): update_item(c, order = base + index)`
      on the records `m`. */
  function SetOrders<K>(m: map<K, Record>, xs: seq<K>, base: int, col: Option<string>, now: string): (r: map<K, Record>)
    ensures r.Keys == m.Keys
    decreases |xs|
  {
    if xs == [] then m
    else
      var r0 := SetOrders(m, xs[..|xs| - 1], base, col, now);
      var x := xs[|xs| - 1];
      if x in r0 then r0[x := Renumbered(r0[x], base + |xs| - 1, col, now)] else r0
  }

  /** After the loop, each listed key holds the order of its LAST position in `xs`
      (a later write of the same key overwrites an earlier one), and every other
      record is untouched. */
  lemma {:induction false} SetOrdersValue<K>(m: map<K, Record>, xs: seq<K>, base: int, col: Option<string>, now: string)
    ensures forall k :: k in m ==> SetOrders(m, xs, base, col, now)[k] == if k in xs then Renumbered(m[k], base + LastIndex(xs, k), col, now) else m[k]
    decreases |xs|
  {
    if xs != [] {
      var front := xs[..|xs| - 1];
      var x := xs[|xs| - 1];
      SetOrdersValue(m, front, base, col, now);
      forall k | k in m && k != x
        ensures k in xs <==> k in front
        ensures k in xs ==> LastIndex(xs, k) == LastIndex(front, k)
      {
        if k in front {
          var j :| 0 <= j < |front| && front[j] == k;
          assert xs[j] == k;
        }
      }
    }
  }

  lemma SetOrdersStep<K>(m: map<K, Record>, xs: seq<K>, i: nat, base: int, col: Option<string>, now: string)
    requires i < |xs| && xs[i] in m
    ensures SetOrders(m, xs[..i + 1], base, col, now)
         == SetOrders(m, xs[..i], base, col, now)[xs[i] := Renumbered(SetOrders(m, xs[..i], base, col, now)[xs[i]], base + i, col, now)]
  {
    assert xs[..i + 1][..i] == xs[..i];
  }

  lemma SetOrdersSnoc<K>(m: map<K, Record>, xs: seq<K>, x: K, base: int, col: Option<string>, now: string)
    requires x in m
    ensures SetOrders(m, xs + [x], base, col, now)
         == SetOrders(m, xs, base, col, now)[x := Renumbered(SetOrders(m, xs, base, col, now)[x], base + |xs|, col, now)]
  {
    assert (xs + [x])[..|xs|] == xs;
  }

  /** A key the renumbering does not list keeps its record. */
  lemma {:induction false} SetOrdersUntouched<K>(m: map<K, Record>, xs: seq<K>, k: K, base: int, col: Option<string>, now: string)
    requires k in m && k !in xs
    ensures SetOrders(m, xs, base, col, now)[k] == m[k]
    decreases |xs|
  {
    if xs != [] {
      assert k !in xs[..|xs| - 1];
      SetOrdersUntouched(m, xs[..|xs| - 1], k, base, col, now);
    }
  }

  /** A query result whose orders are a permutation of `0..n-1`, `n` its length. */
  ghost predicate DenseSeq<K>(s: seq<Item<K>>) {
    && (forall i :: 0 <= i < |s| ==> s[i].rec.order.Some? && 0 <= s[i].rec.order.value < |s|)
    && (forall i, j :: 0 <= i < j < |s| ==> s[i].rec.order != s[j].rec.order)
  }

  /** A query result is dense when its members are exactly the entries of a
      duplicate-free list and each member's order is its position there. */
  lemma DenseByRanks<K>(v: seq<Item<K>>, xs: seq<K>)
    requires NoDup(Keys(v)) && NoDup(xs)
    requires forall k :: k in Keys(v) <==> k in xs
    requires forall i :: 0 <= i < |v| ==> v[i].key in xs && v[i].rec.order == Some(LastIndex(xs, v[i].key))
    ensures DenseSeq(v)
  {
    SameMembersSameLength(Keys(v), xs);
    forall i, j | 0 <= i < j < |v| ensures v[i].rec.order != v[j].rec.order {
      assert Keys(v)[i] != Keys(v)[j];
    }
  }

  /** A query is dense when the records it matches are exactly those listed in
      `xs`, each holding its position there as order. */
  lemma DenseQuery<K(!new)>(m: map<K, Record>, ks: seq<K>, s: Selector, xs: seq<K>)
    requires Enumerates(m, ks) && NoDup(xs)
    requires forall k :: k in m ==> (Matches(m[k], s) <==> k in xs)
    requires forall k :: k in xs ==> k in m && m[k].order == Some(LastIndex(xs, k))
    ensures DenseSeq(Select(m, ks, s)) && |Select(m, ks, s)| == |xs|
  {
    var v := Select(m, ks, s);
    SelectComplete(m, ks, s);
    forall k ensures k in Keys(v) <==> k in xs {
      if k in Keys(v) {
        var i :| 0 <= i < |v| && Keys(v)[i] == k;
      }
    }
    DenseByRanks(v, xs);
    SameMembersSameLength(Keys(v), xs);
  }

  /** A query result grows by one when a record that did not match starts to match. */
  lemma {:induction false} SelectCountAdd<K(!new)>(m: map<K, Record>, keys: seq<K>, k: K, r: Record, s: Selector)
    requires NoDup(keys) && k in keys && k in m
    requires !Matches(m[k], s) && Matches(r, s)
    ensures |Select(m[k := r], keys, s)| == |Select(m, keys, s)| + 1
  {
    if keys[0] == k {
      assert k !in keys[1..];
      SelectFrame(m, m[k := r], keys[1..], s);
    } else {
      assert k in keys[1..];
      SelectCountAdd(m, keys[1..], k, r, s);
    }
  }

  /** `[c for c in s if c['id'] != k]`. */
  function DropKey<K(==)>(s: seq<Item<K>>, k: K): (r: seq<Item<K>>)
    ensures Keys(r) == Without(Keys(s), k)
    ensures forall j :: 0 <= j < |r| ==> r[j] in s
  {
    if s == [] then []
    else
      KeysTail(s);
      if s[0].key == k then DropKey(s[1..], k)
      else
        var rest := DropKey(s[1..], k);
        DropKeyKeptKeys(s, k, rest);
        [s[0]] + rest
  }

  lemma DropKeyKeptKeys<K>(s: seq<Item<K>>, k: K, rest: seq<Item<K>>)
    requires s != [] && s[0].key != k && Keys(rest) == Without(Keys(s[1..]), k)
    ensures Keys([s[0]] + rest) == Without(Keys(s), k)
  {
    KeysTail(s);
    KeysAppend([s[0]], rest);
    assert Keys([s[0]]) == [s[0].key];
  }

  /** One step of the filter: the head is kept unless it holds `k`. */
  lemma DropKeyTail<K>(s: seq<Item<K>>, k: K)
    requires s != []
    ensures DropKey(s, k) == if s[0].key == k then DropKey(s[1..], k) else [s[0]] + DropKey(s[1..], k)
  {
  }

  /** Filtering out a key no entry holds keeps the list as it is. */
  lemma {:induction false} DropKeyAbsent<K>(s: seq<Item<K>>, k: K)
    requires k !in Keys(s)
    ensures DropKey(s, k) == s
  {
    if s != [] {
      KeysTail(s);
      DropKeyTail(s, k);
      DropKeyAbsent(s[1..], k);
      HeadTail(s);
    }
  }

  lemma HeadTail<T>(s: seq<T>)
    requires s != []
    ensures [s[0]] + s[1..] == s
  {
  }

  /** In a list whose keys are distinct, filtering out the key at `p` removes
      exactly that entry. */
  lemma {:induction false} DropKeyAt<K>(s: seq<Item<K>>, p: nat)
    requires p < |s| && NoDup(Keys(s))
    ensures DropKey(s, s[p].key) == s[..p] + s[p + 1..]
  {
    var k := s[p].key;
    KeysTail(s);
    NoDupTail(Keys(s));
    DropKeyTail(s, k);
    if p == 0 {
      DropKeyAbsent(s[1..], k);
      assert s[..p] == [];
    } else {
      assert Keys(s)[0] != Keys(s)[p];
      DropKeyAt(s[1..], p - 1);
      ConsSplice(s, p);
    }
  }

  lemma ConsSplice<T>(s: seq<T>, p: nat)
    requires 0 < p < |s|
    ensures [s[0]] + (s[1..][..p - 1] + s[1..][p..]) == s[..p] + s[p + 1..]
  {
    assert [s[0]] + s[1..p] == s[..p];
  }

  lemma KeysTail<K>(s: seq<Item<K>>)
    requires s != []
    ensures Keys(s) != [] && Keys(s)[0] == s[0].key && Keys(s)[1..] == Keys(s[1..])
  {
    assert Keys(s)[1..] == Keys(s[1..]);
  }

  /** A sequence of `put_item` calls, each replacing the whole item of its key. */
  function PutAll<K(==)>(m: map<K, Record>, ps: seq<Item<K>>): (r: map<K, Record>)
    ensures r.Keys == m.Keys + set k | k in Keys(ps)
    decreases |ps|
  {
    if ps == [] then m
    else
      var r0 := PutAll(m, ps[..|ps| - 1]);
      assert Keys(ps) == Keys(ps[..|ps| - 1]) + [ps[|ps| - 1].key];
      r0[ps[|ps| - 1].key := ps[|ps| - 1].rec]
  }

  /** The last put of a key decides its item; an unlisted key keeps its old one. */
  lemma {:induction false} PutAllValue<K>(m: map<K, Record>, ps: seq<Item<K>>, k: K)
    requires k in m || k in Keys(ps)
    ensures k in PutAll(m, ps)
    ensures PutAll(m, ps)[k] == if k in Keys(ps) then ps[LastIndex(Keys(ps), k)].rec else m[k]
    decreases |ps|
  {
    if ps != [] {
      var front := ps[..|ps| - 1];
      assert Keys(front) == Keys(ps)[..|ps| - 1];
      if ps[|ps| - 1].key != k {
        if k in Keys(ps) {
          var j :| 0 <= j < |ps| && Keys(ps)[j] == k;
          assert Keys(front)[j] == k;
        }
        if k in Keys(front) {
          var j :| 0 <= j < |front| && Keys(front)[j] == k;
          assert Keys(ps)[j] == k;
        }
        PutAllValue(m, front, k);
      }
    }
  }

  /** A renumbering that does not move records to another column changes no
      query's membership. */
  lemma SetOrdersKeepsMatches<K>(m: map<K, Record>, xs: seq<K>, base: int, now: string, s: Selector)
    ensures forall k :: k in m ==> (Matches(SetOrders(m, xs, base, None, now)[k], s) <==> Matches(m[k], s))
  {
    SetOrdersValue(m, xs, base, None, now);
  }

  /** Renumbering a query result in query order (`for index, c in enumerate(q)`)
      leaves the same query listing the same items, the `i`-th with order `i`. */
  lemma RenumberQuery<K(!new)>(m: map<K, Record>, ks: seq<K>, s: Selector, now: string)
    requires Enumerates(m, ks)
    ensures var xs := Keys(Select(m, ks, s));
            var v := Select(SetOrders(m, xs, 0, None, now), ks, s);
            && Keys(v) == xs
            && (forall i :: 0 <= i < |v| ==> v[i].rec.order == Some(i))
            && DenseSeq(v)
  {
    var xs := Keys(Select(m, ks, s));
    SelectComplete(m, ks, s);
    RenumberQueryKeys(m, ks, s, xs, now);
    var v := Select(SetOrders(m, xs, 0, None, now), ks, s);
    forall i | 0 <= i < |v| ensures v[i].rec.order == Some(i) {
      RenumberQueryOrder(m, ks, xs, v, now, i);
    }
  }

  lemma RenumberQueryKeys<K(!new)>(m: map<K, Record>, ks: seq<K>, s: Selector, xs: seq<K>, now: string)
    requires xs == Keys(Select(m, ks, s))
    ensures Keys(Select(SetOrders(m, xs, 0, None, now), ks, s)) == xs
  {
    var m2 := SetOrders(m, xs, 0, None, now);
    SetOrdersKeepsMatches(m, xs, 0, now, s);
    SelectFrame(m, m2, ks, s);
    assert Keys(Select(m2, ks, s)) == xs;
  }

  lemma RenumberQueryOrder<K(!new)>(m: map<K, Record>, ks: seq<K>, xs: seq<K>, v: seq<Item<K>>, now: string, i: nat)
    requires NoDup(xs) && Keys(v) == xs && i < |v|
    requires forall j :: 0 <= j < |xs| ==> xs[j] in m
    requires forall j :: 0 <= j < |v| ==> v[j].rec == SetOrders(m, xs, 0, None, now)[v[j].key]
    ensures v[i].rec.order == Some(i)
  {
    assert v[i].key == xs[i];
    LastIndexOfDistinct(xs, i);
    SetOrdersAt(m, xs, 0, None, now, i);
  }

  /** Writing `column_id = c` on records that already hold `c` is writing no
      column at all. */
  lemma SetOrdersSameColumn<K>(m: map<K, Record>, xs: seq<K>, base: int, c: string, now: string)
    requires forall j :: 0 <= j < |xs| ==> xs[j] in m && m[xs[j]].columnId == Some(c)
    ensures SetOrders(m, xs, base, Some(c), now) == SetOrders(m, xs, base, None, now)
  {
    SetOrdersValue(m, xs, base, Some(c), now);
    SetOrdersValue(m, xs, base, None, now);
    forall k | k in m && k in xs ensures m[k].columnId == Some(c) {
      var j :| 0 <= j < |xs| && xs[j] == k;
    }
  }

  /** Every key a query returns is stored and matches. */
  lemma SelectKeys<K(!new)>(m: map<K, Record>, ks: seq<K>, s: Selector)
    ensures forall k :: k in Keys(Select(m, ks, s)) ==> k in m && Matches(m[k], s)
  {
    var q := Select(m, ks, s);
    forall k | k in Keys(q) ensures k in m && Matches(m[k], s) {
      var j :| 0 <= j < |q| && Keys(q)[j] == k;
    }
  }

  /** Renumbering a query result in query order leaves the same query listing the
      same items, the `i`-th with order `i` and `updated_at` set, nothing else
      changed. */
  lemma RenumberQueryRecords<K(!new)>(m: map<K, Record>, ks: seq<K>, s: Selector, now: string)
    requires Enumerates(m, ks)
    ensures var q := Select(m, ks, s);
            var v := Select(SetOrders(m, Keys(q), 0, None, now), ks, s);
            && Keys(v) == Keys(q)
            && (forall i :: 0 <= i < |q| ==> v[i].rec == q[i].rec.(order := Some(i), updatedAt := Some(now)))
  {
    var q := Select(m, ks, s);
    var xs := Keys(q);
    SelectComplete(m, ks, s);
    RenumberQueryKeys(m, ks, s, xs, now);
    var v := Select(SetOrders(m, xs, 0, None, now), ks, s);
    forall i | 0 <= i < |q| ensures v[i].rec == q[i].rec.(order := Some(i), updatedAt := Some(now)) {
      RenumberedEntry(m, xs, q, v, now, i);
    }
  }

  lemma RenumberedEntry<K>(m: map<K, Record>, xs: seq<K>, q: seq<Item<K>>, v: seq<Item<K>>, now: string, i: nat)
    requires NoDup(xs) && Keys(q) == xs && Keys(v) == xs && i < |q|
    requires forall j :: 0 <= j < |q| ==> q[j].key in m && q[j].rec == m[q[j].key]
    requires forall j :: 0 <= j < |v| ==> v[j].rec == SetOrders(m, xs, 0, None, now)[v[j].key]
    ensures v[i].rec == q[i].rec.(order := Some(i), updatedAt := Some(now))
  {
    assert v[i].key == xs[i] && q[i].key == xs[i];
    LastIndexOfDistinct(xs, i);
    SetOrdersAt(m, xs, 0, None, now, i);
  }

  /** The record a renumbering leaves at a listed key. */
  lemma SetOrdersAt<K>(m: map<K, Record>, xs: seq<K>, base: int, col: Option<string>, now: string, i: nat)
    requires i < |xs| && xs[i] in m
    ensures SetOrders(m, xs, base, col, now)[xs[i]] == Renumbered(m[xs[i]], base + LastIndex(xs, xs[i]), col, now)
  {
    SetOrdersValue(m, xs, base, col, now);
  }

  /** The same, for a listed key. */
  lemma SetOrdersOf<K>(m: map<K, Record>, xs: seq<K>, base: int, col: Option<string>, now: string, k: K)
    requires k in xs && k in m
    ensures SetOrders(m, xs, base, col, now)[k] == Renumbered(m[k], base + LastIndex(xs, k), col, now)
  {
    SetOrdersValue(m, xs, base, col, now);
  }

  /** One more delete of a batch: the items left are those not among the first
      `i + 1` deleted keys. */
  lemma DeleteStep<K>(m0: map<K, Record>, mi: map<K, Record>, ds: seq<K>, i: nat)
    requires i < |ds|
    requires forall k :: k in mi <==> k in m0 && k !in ds[..i]
    ensures forall k :: k in mi - {ds[i]} <==> k in m0 && k !in ds[..i + 1]
  {
    assert ds[..i + 1] == ds[..i] + [ds[i]];
  }

  /** The table itself, as the adapters' `self.table` reaches it. */
  class Table<K(==, !new)> {
    var items: map<K, Record>
    var keys: seq<K>

    ghost predicate Valid()
      reads this
    {
      Enumerates(items, keys)
    }

    constructor ()
      ensures Valid() && items == map[] && keys == []
    {
      items := map[];
      keys := [];
    }

    /** `get_item`: the item under `k`, if any. */
    function Get(k: K): (r: Option<Record>)
      reads this
      ensures r.Some? <==> k in items
      ensures r.Some? ==> r.value == items[k]
    {
      if k in items then Some(items[k]) else None
    }

    /** A secondary-index query or a filtered scan. */
    function Query(s: Selector): seq<Item<K>>
      reads this
    {
      Select(items, keys, s)
    }

    /** `put_item` (and `update_item`, which writes back the whole new item): a new
        key joins the end of the enumeration, an existing one keeps its place. */
    method Put(k: K, r: Record)
      requires Valid()
      modifies this
      ensures Valid()
      ensures items == old(items)[k := r]
      ensures keys == if k in old(items) then old(keys) else old(keys) + [k]
    {
      if k !in items {
        keys := keys + [k];
      }
      items := items[k := r];
    }

    /** `delete_item`: removing an absent key is not an error. */
    method Delete(k: K)
      requires Valid()
      modifies this
      ensures Valid()
      ensures items == old(items) - {k}
      ensures keys == Without(old(keys), k)
    {
      items := items - {k};
      keys := Without(keys, k);
    }

    /** A loop of `delete_item` calls (a `batch_writer` of deletes). */
    method DeleteEach(ds: seq<K>)
      requires Valid()
      modifies this
      ensures Valid()
      ensures forall k :: k in items <==> k in old(items) && k !in ds
      ensures forall k :: k in items ==> items[k] == old(items)[k]
      ensures keys == Restrict(old(keys), items)
    {
      ghost var m0 := items;
      ghost var ks0 := keys;
      RestrictEnumeration(keys, items);
      var i := 0;
      while i < |ds|
        invariant 0 <= i <= |ds|
        invariant Valid()
        invariant forall k :: k in items <==> k in m0 && k !in ds[..i]
        invariant forall k :: k in items ==> items[k] == m0[k]
        invariant keys == Restrict(ks0, items)
      {
        RestrictWithout(ks0, items, ds[i]);
        DeleteStep(m0, items, ds, i);
        Delete(ds[i]);
        i := i + 1;
      }
      assert ds[..i] == ds;
    }

    /** A loop of `put_item` calls over items whose keys are already stored. */
    method PutEach(ps: seq<Item<K>>)
      requires Valid()
      requires forall j :: 0 <= j < |ps| ==> ps[j].key in items
      modifies this
      ensures Valid() && keys == old(keys)
      ensures items == PutAll(old(items), ps)
    {
      var i := 0;
      while i < |ps|
        invariant 0 <= i <= |ps|
        invariant Valid() && keys == old(keys)
        invariant items == PutAll(old(items), ps[..i])
        invariant items.Keys == old(items).Keys
      {
        assert ps[..i + 1][..i] == ps[..i];
        Put(ps[i].key, ps[i].rec);
        i := i + 1;
      }
      assert ps[..i] == ps;
    }

    /** The loop `for index, c in enumerate(xs): update_item(c, order = base + index, ...)`. */
    method Renumber(xs: seq<K>, base: int, col: Option<string>, now: string)
      requires Valid()
      requires forall i :: 0 <= i < |xs| ==> xs[i] in items
      modifies this
      ensures Valid() && keys == old(keys)
      ensures items == SetOrders(old(items), xs, base, col, now)
    {
      var i := 0;
      while i < |xs|
        invariant 0 <= i <= |xs|
        invariant Valid() && keys == old(keys)
        invariant items == SetOrders(old(items), xs[..i], base, col, now)
      {
        ghost var before := items;
        SetOrdersStep(old(items), xs, i, base, col, now);
        assert xs[i] in items;
        Put(xs[i], Renumbered(items[xs[i]], base + i, col, now));
        assert items == before[xs[i] := Renumbered(before[xs[i]], base + i, col, now)];
        i := i + 1;
      }
      assert xs[..i] == xs;
    }
  }
}
