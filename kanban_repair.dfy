/** The two repair passes of the API adapter: `_reorder_cards_in_column`, which
    renumbers one column's cards densely in order-sorted sequence, and
    `fix_card_orders`, which gives every card without an order its rank by
    creation time. */
module KanbanRepair {
  import opened Records
  import opened Sequences
  import opened Sorting
  import opened Ordering
  import opened Tables

  // ---------------------------------------------------------------------------
  // _reorder_cards_in_column

  /** The list `_reorder_cards_in_column` renumbers: the column's cards, sorted
      by `order` (a missing order counting as 0), ties in query order. */
  function ReorderList(m: map<string, Record>, ks: seq<string>, columnId: string): seq<Item<string>> {
    Sort(ByOrder, Select(m, ks, CardsOf(columnId)))
  }

  /** The records after `_reorder_cards_in_column`; an empty column gives an empty
      loop, the early return. */
  function ReorderEffect(m: map<string, Record>, ks: seq<string>, columnId: string, now: string): map<string, Record> {
    SetOrders(m, Keys(ReorderList(m, ks, columnId)), 0, None, now)
  }

  /** The renumbered list holds every card of the column, each once. */
  lemma ReorderListFacts(m: map<string, Record>, ks: seq<string>, c: string)
    requires Enumerates(m, ks)
    ensures var xs := Keys(ReorderList(m, ks, c));
            && NoDup(xs)
            && (forall k :: k in xs ==> k in m)
            && (forall k :: k in m ==> (Matches(m[k], CardsOf(c)) <==> k in xs))
  {
    var s0 := Select(m, ks, CardsOf(c));
    SelectComplete(m, ks, CardsOf(c));
    SortKeysDistinct(ByOrder, s0);
    forall k | k in Keys(ReorderList(m, ks, c)) ensures k in m {
      SortKeyMembers(ByOrder, s0, k);
      var i :| 0 <= i < |s0| && Keys(s0)[i] == k;
    }
    forall k | k in m ensures Matches(m[k], CardsOf(c)) <==> k in Keys(ReorderList(m, ks, c)) {
      SortKeyMembers(ByOrder, s0, k);
      if k in Keys(s0) {
        var i :| 0 <= i < |s0| && Keys(s0)[i] == k;
      }
    }
  }

  /** After the pass the column holds the same cards, the card at position `i` of
      the order-sorted list has order `i` and the new `updated_at`, nothing else
      of it changes, and no other record changes. */
  lemma ReorderValue(m: map<string, Record>, ks: seq<string>, c: string, now: string)
    requires Enumerates(m, ks)
    ensures var m1 := ReorderEffect(m, ks, c, now);
            var xs := Keys(ReorderList(m, ks, c));
            && m1.Keys == m.Keys
            && (forall k :: k in m ==> (Matches(m1[k], CardsOf(c)) <==> Matches(m[k], CardsOf(c))))
            && (forall k :: k in m && !Matches(m[k], CardsOf(c)) ==> m1[k] == m[k])
            && (forall i :: 0 <= i < |xs| && xs[i] in m ==> m1[xs[i]] == m[xs[i]].(order := Some(i), updatedAt := Some(now)))
  {
    var m1 := ReorderEffect(m, ks, c, now);
    var xs := Keys(ReorderList(m, ks, c));
    ReorderListFacts(m, ks, c);
    SetOrdersValue(m, xs, 0, None, now);
    forall i | 0 <= i < |xs| && xs[i] in m ensures m1[xs[i]] == m[xs[i]].(order := Some(i), updatedAt := Some(now)) {
      LastIndexOfDistinct(xs, i);
    }
  }

  /** After the pass the cards of the column are the entries of the renumbered
      list, each with its position there as order. */
  lemma ReorderRanks(m: map<string, Record>, ks: seq<string>, c: string, now: string)
    requires Enumerates(m, ks)
    ensures var m1 := ReorderEffect(m, ks, c, now);
            var xs := Keys(ReorderList(m, ks, c));
            && Enumerates(m1, ks) && NoDup(xs)
            && (forall k :: k in m1 ==> (Matches(m1[k], CardsOf(c)) <==> k in xs))
            && (forall k :: k in xs ==> k in m1 && m1[k].order == Some(LastIndex(xs, k)))
  {
    ReorderListFacts(m, ks, c);
    SetOrdersValue(m, Keys(ReorderList(m, ks, c)), 0, None, now);
  }

  /** After the pass the column's orders are a permutation of `0..n-1`, `n` its
      number of cards. */
  lemma ReorderDense(m: map<string, Record>, ks: seq<string>, c: string, now: string)
    requires Enumerates(m, ks)
    ensures DenseSeq(Select(ReorderEffect(m, ks, c, now), ks, CardsOf(c)))
    ensures |Select(ReorderEffect(m, ks, c, now), ks, CardsOf(c))| == |Select(m, ks, CardsOf(c))|
  {
    ReorderRanks(m, ks, c, now);
    DenseQuery(ReorderEffect(m, ks, c, now), ks, CardsOf(c), Keys(ReorderList(m, ks, c)));
  }

  /** The order-sorted list after the pass is the list the pass renumbered. */
  lemma ReorderedListStable(m: map<string, Record>, ks: seq<string>, c: string, now: string)
    requires Enumerates(m, ks)
    ensures Keys(ReorderList(ReorderEffect(m, ks, c, now), ks, c)) == Keys(ReorderList(m, ks, c))
  {
    var m1 := ReorderEffect(m, ks, c, now);
    var xs := Keys(ReorderList(m, ks, c));
    ReorderRanks(m, ks, c, now);
    var s1 := Select(m1, ks, CardsOf(c));
    var l1 := Sort(ByOrder, s1);
    DenseQuery(m1, ks, CardsOf(c), xs);
    SelectDistinct(m1, ks, CardsOf(c));
    SortKeysDistinct(ByOrder, s1);
    SortSorted(ByOrder, s1);
    forall i | 0 <= i < |l1| ensures l1[i].key in xs && l1[i].rec.order == Some(LastIndex(xs, l1[i].key)) {
      SortMembers(ByOrder, s1, i);
    }
    RanksSortedInOrder(l1, xs);
  }

  /** A list sorted by order whose entries are distinct members of `xs`, each
      with its position in `xs` as order, and as long as `xs`, is `xs`. */
  lemma RanksSortedInOrder(l: seq<Item<string>>, xs: seq<string>)
    requires NoDup(Keys(l)) && Sorted(ByOrder, l) && |l| == |xs|
    requires forall i :: 0 <= i < |l| ==> l[i].key in xs && l[i].rec.order == Some(LastIndex(xs, l[i].key))
    ensures Keys(l) == xs
  {
    var os := seq(|l|, i requires 0 <= i < |l| => OrderKey(l[i].rec));
    forall i, j | 0 <= i < j < |os| ensures os[i] < os[j] {
      assert Keys(l)[i] != Keys(l)[j];
      assert !Before(ByOrder, l[j].rec, l[i].rec);
    }
    IncreasingPermutationIsIdentity(os);
    forall i | 0 <= i < |xs| ensures Keys(l)[i] == xs[i] {
      assert os[i] == i;
    }
  }

  /** Running the pass twice with the same timestamp gives the state of one run. */
  lemma ReorderIdempotent(m: map<string, Record>, ks: seq<string>, c: string, now: string)
    requires Enumerates(m, ks)
    ensures ReorderEffect(ReorderEffect(m, ks, c, now), ks, c, now) == ReorderEffect(m, ks, c, now)
  {
    var m1 := ReorderEffect(m, ks, c, now);
    var xs := Keys(ReorderList(m, ks, c));
    ReorderedListStable(m, ks, c, now);
    SetOrdersValue(m, xs, 0, None, now);
    SetOrdersValue(m1, xs, 0, None, now);
  }

  // ---------------------------------------------------------------------------
  // fix_card_orders

  /** `{**card, 'order': index, 'updated_at': now}`. */
  function Backfilled(r: Record, index: int, now: string): Record {
    r.(order := Some(index), updatedAt := Some(now))
  }

  /** The batch of puts over one column's cards `cs`, in creation order: a card
      whose `order` is `None` is written back, from the queried item, with its
      index; any other card is skipped. */
  function Backfill(m: map<string, Record>, cs: seq<Item<string>>, now: string): (r: map<string, Record>)
    ensures r.Keys == m.Keys
    decreases |cs|
  {
    if cs == [] then m
    else
      var r0 := Backfill(m, cs[..|cs| - 1], now);
      var c := cs[|cs| - 1];
      if c.rec.order.None? && c.key in r0 then r0[c.key := Backfilled(c.rec, |cs| - 1, now)] else r0
  }

  /** Over a duplicate-free list of stored items, each listed item without an
      order gets its position, and nothing else changes. */
  lemma {:induction false} BackfillValue(m: map<string, Record>, cs: seq<Item<string>>, now: string)
    requires NoDup(Keys(cs))
    requires forall i :: 0 <= i < |cs| ==> cs[i].key in m && cs[i].rec == m[cs[i].key]
    ensures forall k :: k in m ==>
              (Backfill(m, cs, now)[k] ==
               if k in Keys(cs) && m[k].order.None? then Backfilled(m[k], LastIndex(Keys(cs), k), now) else m[k])
    decreases |cs|
  {
    if cs != [] {
      var front := cs[..|cs| - 1];
      var x := cs[|cs| - 1];
      assert Keys(front) == Keys(cs)[..|cs| - 1];
      BackfillValue(m, front, now);
      assert x.key !in Keys(front) by {
        forall j | 0 <= j < |front| ensures Keys(front)[j] != x.key {
          assert Keys(cs)[j] != Keys(cs)[|cs| - 1];
        }
      }
      forall k | k in m && k != x.key
        ensures k in Keys(cs) <==> k in Keys(front)
        ensures k in Keys(cs) ==> LastIndex(Keys(cs), k) == LastIndex(Keys(front), k)
      {
        if k in Keys(front) {
          var j :| 0 <= j < |front| && Keys(front)[j] == k;
          assert Keys(cs)[j] == k;
        }
      }
    }
  }

  /** A list whose items all have an order causes no put. */
  lemma {:induction false} BackfillNothing(m: map<string, Record>, cs: seq<Item<string>>, now: string)
    requires forall i :: 0 <= i < |cs| ==> cs[i].rec.order.Some?
    ensures Backfill(m, cs, now) == m
    decreases |cs|
  {
    if cs != [] {
      BackfillNothing(m, cs[..|cs| - 1], now);
    }
  }

  /** A column's cards in the order the pass visits them. */
  function ByCreation(m: map<string, Record>, ks: seq<string>, c: string): seq<Item<string>> {
    Sort(ByCreated, Select(m, ks, CardsOf(c)))
  }

  /** The pass over one column. */
  function FixColumn(m: map<string, Record>, ks: seq<string>, c: string, now: string): map<string, Record> {
    Backfill(m, ByCreation(m, ks, c), now)
  }

  /** The pass over the listed columns, one after the other, each reading the
      cards as the previous ones left them. */
  function FixAll(m: map<string, Record>, ks: seq<string>, cols: seq<string>, now: string): (r: map<string, Record>)
    ensures r.Keys == m.Keys
    decreases |cols|
  {
    if cols == [] then m
    else FixColumn(FixAll(m, ks, cols[..|cols| - 1], now), ks, cols[|cols| - 1], now)
  }

  /** One more column of the pass. */
  lemma FixAllStep(m: map<string, Record>, ks: seq<string>, cols: seq<string>, i: nat, now: string)
    requires i < |cols|
    ensures FixAll(m, ks, cols[..i + 1], now) == FixColumn(FixAll(m, ks, cols[..i], now), ks, cols[i], now)
  {
    assert cols[..i + 1][..i] == cols[..i];
  }

  /** The pass over column `c` gives each of its cards without an order its rank
      by creation time, with the new `updated_at`, and leaves every other record
      as it was. */
  lemma FixColumnValue(m: map<string, Record>, ks: seq<string>, c: string, now: string)
    requires Enumerates(m, ks)
    ensures forall k :: k in m ==> (Matches(m[k], CardsOf(c)) <==> k in Keys(ByCreation(m, ks, c)))
    ensures var m1 := FixColumn(m, ks, c, now);
            var xs := Keys(ByCreation(m, ks, c));
            forall k :: k in m ==>
              (m1[k] == if k in xs && m[k].order.None? then Backfilled(m[k], LastIndex(xs, k), now) else m[k])
  {
    var s0 := Select(m, ks, CardsOf(c));
    var cs := ByCreation(m, ks, c);
    SelectComplete(m, ks, CardsOf(c));
    SortKeysDistinct(ByCreated, s0);
    forall i | 0 <= i < |cs| ensures cs[i].key in m && cs[i].rec == m[cs[i].key] {
      SortMembers(ByCreated, s0, i);
    }
    BackfillValue(m, cs, now);
    forall k | k in m ensures Matches(m[k], CardsOf(c)) <==> k in Keys(cs) {
      SortKeyMembers(ByCreated, s0, k);
      if k in Keys(s0) {
        var i :| 0 <= i < |s0| && Keys(s0)[i] == k;
      }
    }
  }

  /** No card of column `c` lacks an order. */
  ghost predicate Ordered(m: map<string, Record>, c: string) {
    forall k :: k in m && Matches(m[k], CardsOf(c)) ==> m[k].order.Some?
  }

  /** `m1` differs from `m` only in cards that had no order, each of which got an
      order and the `updated_at` `now` and kept everything else. */
  ghost predicate OnlyBackfilled(m: map<string, Record>, m1: map<string, Record>, now: string) {
    && m1.Keys == m.Keys
    && forall k :: k in m ==>
         || m1[k] == m[k]
         || (&& m[k].kind == Some(Card) && m[k].order.None? && m1[k].order.Some?
             && m1[k] == Backfilled(m[k], m1[k].order.value, now))
  }

  /** The pass over one column only backfills, and leaves the column ordered. */
  lemma FixColumnBackfills(m: map<string, Record>, ks: seq<string>, c: string, now: string)
    requires Enumerates(m, ks)
    ensures OnlyBackfilled(m, FixColumn(m, ks, c, now), now)
    ensures Ordered(FixColumn(m, ks, c, now), c)
  {
    FixColumnValue(m, ks, c, now);
  }

  /** The whole pass only backfills, and leaves every listed column ordered. */
  lemma {:induction false} FixAllBackfills(m: map<string, Record>, ks: seq<string>, cols: seq<string>, now: string)
    requires Enumerates(m, ks)
    ensures OnlyBackfilled(m, FixAll(m, ks, cols, now), now)
    ensures forall c :: c in cols ==> Ordered(FixAll(m, ks, cols, now), c)
    decreases |cols|
  {
    if cols != [] {
      var front := cols[..|cols| - 1];
      var c := cols[|cols| - 1];
      var mf := FixAll(m, ks, front, now);
      var m1 := FixAll(m, ks, cols, now);
      FixAllBackfills(m, ks, front, now);
      FixColumnBackfills(mf, ks, c, now);
      forall d | d in cols ensures Ordered(m1, d) {
        if d != c {
          assert d in front;
        }
      }
    }
  }

  /** When every listed column is already ordered, the pass writes nothing. */
  lemma {:induction false} FixAllNothing(m: map<string, Record>, ks: seq<string>, cols: seq<string>, now: string)
    requires forall c :: c in cols ==> Ordered(m, c)
    ensures FixAll(m, ks, cols, now) == m
    decreases |cols|
  {
    if cols != [] {
      var c := cols[|cols| - 1];
      FixAllNothing(m, ks, cols[..|cols| - 1], now);
      assert c in cols;
      FixOrderedColumn(m, ks, c, now);
    }
  }

  /** The pass over a column whose cards all have an order writes nothing. */
  lemma FixOrderedColumn(m: map<string, Record>, ks: seq<string>, c: string, now: string)
    requires Ordered(m, c)
    ensures FixColumn(m, ks, c, now) == m
  {
    var s0 := Select(m, ks, CardsOf(c));
    forall i | 0 <= i < |s0| ensures Sort(ByCreated, s0)[i].rec.order.Some? {
      SortMembers(ByCreated, s0, i);
      var j :| 0 <= j < |s0| && s0[j] == Sort(ByCreated, s0)[i];
    }
    BackfillNothing(m, ByCreation(m, ks, c), now);
  }

  /** `fix_card_orders` run twice with the same timestamp: the second run lists
      the same columns and writes nothing. */
  lemma FixCardOrdersTwice(m: map<string, Record>, ks: seq<string>, now: string)
    requires Enumerates(m, ks)
    ensures var cols := Keys(Select(m, ks, OfKind(Column)));
            var m1 := FixAll(m, ks, cols, now);
            && Select(m1, ks, OfKind(Column)) == Select(m, ks, OfKind(Column))
            && FixAll(m1, ks, cols, now) == m1
  {
    var cols := Keys(Select(m, ks, OfKind(Column)));
    var m1 := FixAll(m, ks, cols, now);
    FixAllBackfills(m, ks, cols, now);
    SelectUnchanged(m, m1, ks, OfKind(Column));
    FixAllNothing(m1, ks, cols, now);
  }
}
