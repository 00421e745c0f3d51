/** What the card operations of the API adapter (`kanban_backend/boards/dynamodb.py`)
    do to the records: relocation of a deleted column's cards, `move_card`'s two
    dense renumberings, the in-column reorder and the repair pass that backfills
    missing orders. Items are keyed by id alone. */
module KanbanCards {
  import opened Records
  import opened Sequences
  import opened Sorting
  import opened Ordering
  import opened Tables

  /** `next((col for col in columns if col['id'] != column_id), None)`. */
  function FirstOther(cols: seq<Item<string>>, id: string): (r: Option<string>)
    ensures r.None? <==> forall i :: 0 <= i < |cols| ==> cols[i].key == id
    ensures r.Some? ==> r.value != id && r.value in Keys(cols)
  {
    if cols == [] then None
    else if cols[0].key != id then
      assert Keys(cols)[0] == cols[0].key;
      Some(cols[0].key)
    else
      assert Keys(cols[1..]) == Keys(cols)[1..];
      FirstOther(cols[1..], id)
  }

  /** The target is the first listed column that is not the deleted one. */
  lemma {:induction false} FirstOtherIsFirst(cols: seq<Item<string>>, id: string, i: nat)
    requires i < |cols| && cols[i].key != id
    requires forall j :: 0 <= j < i ==> cols[j].key == id
    ensures FirstOther(cols, id) == Some(cols[i].key)
  {
    if i > 0 {
      FirstOtherIsFirst(cols[1..], id, i - 1);
    }
  }

  /** The records after `delete_column` moved the cards of `columnId`, in query
      order, to `target` and deleted the column: the `i`-th moved card gets
      `column_id = target` and order `n + i`, `n` being the target's card count
      before. */
  function DeleteColumnEffect(m: map<string, Record>, ks: seq<string>, columnId: string, target: string, now: string)
    : map<string, Record>
  {
    var cards := Select(m, ks, CardsOf(columnId));
    var n := |Select(m, ks, CardsOf(target))|;
    SetOrders(m, Keys(cards), n, Some(target), now) - {columnId}
  }

  /** One pass of the relocation loop: the next card still has its old record,
      which does not match the target's query, and the update makes it match. */
  lemma RelocateStep(m: map<string, Record>, ks: seq<string>, columnId: string, target: string,
                     n: int, now: string, i: nat)
    requires Enumerates(m, ks) && target != columnId
    requires i < |Select(m, ks, CardsOf(columnId))|
    ensures var cards := Select(m, ks, CardsOf(columnId));
            var mi := SetOrders(m, Keys(cards)[..i], n, Some(target), now);
            var k := cards[i].key;
            && k in mi && k in ks
            && mi[k] == m[k]
            && !Matches(mi[k], CardsOf(target))
            && Matches(Renumbered(mi[k], n + i, Some(target), now), CardsOf(target))
            && SetOrders(m, Keys(cards)[..i + 1], n, Some(target), now) == mi[k := Renumbered(mi[k], n + i, Some(target), now)]
  {
    var cards := Select(m, ks, CardsOf(columnId));
    SelectComplete(m, ks, CardsOf(columnId));
    var xs := Keys(cards);
    var k := cards[i].key;
    assert xs[i] == k;
    assert k !in xs[..i] by {
      forall j | 0 <= j < i ensures xs[j] != k {
        assert xs[j] != xs[i];
      }
    }
    SetOrdersUntouched(m, xs[..i], k, n, Some(target), now);
    SetOrdersStep(m, xs, i, n, Some(target), now);
  }

  /** The relocation loop's invariant after the update of the `i`-th card. */
  lemma RelocateAdvance(m: map<string, Record>, ks: seq<string>, columnId: string, target: string,
                        n: int, now: string, i: nat, before: map<string, Record>, after: map<string, Record>, o: int)
    requires Enumerates(m, ks) && target != columnId
    requires i < |Select(m, ks, CardsOf(columnId))|
    requires before == SetOrders(m, Keys(Select(m, ks, CardsOf(columnId)))[..i], n, Some(target), now)
    requires o == n + i
    requires var k := Select(m, ks, CardsOf(columnId))[i].key;
             k in before && after == before[k := Renumbered(before[k], o, Some(target), now)]
    ensures after == SetOrders(m, Keys(Select(m, ks, CardsOf(columnId)))[..i + 1], n, Some(target), now)
  {
    var cards := Select(m, ks, CardsOf(columnId));
    assert Keys(cards)[i] == cards[i].key;
    SetOrdersStep(m, Keys(cards), i, n, Some(target), now);
  }

  /** `delete_column` moves every card of the column to the target, each keeping
      its other attributes and taking order `n + i` from its query position `i`;
      it deletes the column and leaves every other record as it was. */
  lemma DeleteColumnRelocates(m: map<string, Record>, ks: seq<string>, columnId: string, target: string, now: string)
    requires Enumerates(m, ks) && target != columnId
    requires columnId in m && m[columnId].kind == Some(Column)
    ensures var cards := Select(m, ks, CardsOf(columnId));
            var n := |Select(m, ks, CardsOf(target))|;
            var m2 := DeleteColumnEffect(m, ks, columnId, target, now);
            && m2.Keys == m.Keys - {columnId}
            && (forall i :: 0 <= i < |cards| ==>
                  m2[cards[i].key] == cards[i].rec.(columnId := Some(target), order := Some(n + i), updatedAt := Some(now)))
            && (forall k :: k in m2 && k !in Keys(cards) ==> m2[k] == m[k])
  {
    RelocatedCards(m, ks, columnId, target, now);
    RelocationSpares(m, ks, columnId, target, now);
  }

  lemma RelocatedCards(m: map<string, Record>, ks: seq<string>, columnId: string, target: string, now: string)
    requires Enumerates(m, ks)
    requires columnId in m && m[columnId].kind == Some(Column)
    ensures var cards := Select(m, ks, CardsOf(columnId));
            var n := |Select(m, ks, CardsOf(target))|;
            var m2 := DeleteColumnEffect(m, ks, columnId, target, now);
            forall i :: 0 <= i < |cards| ==>
              cards[i].key in m2 &&
              m2[cards[i].key] == cards[i].rec.(columnId := Some(target), order := Some(n + i), updatedAt := Some(now))
  {
    var cards := Select(m, ks, CardsOf(columnId));
    var n := |Select(m, ks, CardsOf(target))|;
    var xs := Keys(cards);
    SelectDistinct(m, ks, CardsOf(columnId));
    forall i | 0 <= i < |cards|
      ensures cards[i].key != columnId
      ensures SetOrders(m, xs, n, Some(target), now)[cards[i].key]
           == cards[i].rec.(columnId := Some(target), order := Some(n + i), updatedAt := Some(now))
    {
      assert cards[i].rec.kind == Some(Card);
      RelocatedAt(m, xs, cards, n, target, now, i);
    }
  }

  lemma RelocationSpares(m: map<string, Record>, ks: seq<string>, columnId: string, target: string, now: string)
    ensures var cards := Select(m, ks, CardsOf(columnId));
            var m2 := DeleteColumnEffect(m, ks, columnId, target, now);
            && m2.Keys == m.Keys - {columnId}
            && (forall k :: k in m2 && k !in Keys(cards) ==> m2[k] == m[k])
  {
    var cards := Select(m, ks, CardsOf(columnId));
    var n := |Select(m, ks, CardsOf(target))|;
    forall k | k in m && k !in Keys(cards) ensures SetOrders(m, Keys(cards), n, Some(target), now)[k] == m[k] {
      SetOrdersUntouched(m, Keys(cards), k, n, Some(target), now);
    }
  }

  lemma RelocatedAt(m: map<string, Record>, xs: seq<string>, cards: seq<Item<string>>, n: int, target: string, now: string, i: nat)
    requires NoDup(xs) && xs == Keys(cards) && i < |cards|
    requires cards[i].key in m && m[cards[i].key] == cards[i].rec
    ensures SetOrders(m, xs, n, Some(target), now)[cards[i].key]
         == cards[i].rec.(columnId := Some(target), order := Some(n + i), updatedAt := Some(now))
  {
    assert xs[i] == cards[i].key;
    LastIndexOfDistinct(xs, i);
    SetOrdersAt(m, xs, n, Some(target), now, i);
  }

  /** Relocation keeps the set of cards: no card is created or lost, the deleted
      column is left with none, and the target ends with its own cards plus the
      relocated ones. */
  lemma DeleteColumnKeepsCards(m: map<string, Record>, ks: seq<string>, columnId: string, target: string, now: string)
    requires Enumerates(m, ks) && target != columnId
    requires columnId in m && m[columnId].kind == Some(Column)
    ensures var m2 := DeleteColumnEffect(m, ks, columnId, target, now);
            && (set k | k in m2 && m2[k].kind == Some(Card)) == (set k | k in m && m[k].kind == Some(Card))
            && (forall k :: k in m2 ==> !Matches(m2[k], CardsOf(columnId)))
            && (forall k :: k in m2 && Matches(m2[k], CardsOf(target)) <==>
                  k in m && (Matches(m[k], CardsOf(target)) || Matches(m[k], CardsOf(columnId))))
  {
    var cards := Select(m, ks, CardsOf(columnId));
    var m2 := DeleteColumnEffect(m, ks, columnId, target, now);
    DeleteColumnRelocates(m, ks, columnId, target, now);
    SelectComplete(m, ks, CardsOf(columnId));
    forall k | k in m
      ensures k in m2 ==> (m2[k].kind == Some(Card) <==> m[k].kind == Some(Card))
      ensures k in m2 ==> !Matches(m2[k], CardsOf(columnId))
      ensures k in m2 ==> (Matches(m2[k], CardsOf(target)) <==> Matches(m[k], CardsOf(target)) || Matches(m[k], CardsOf(columnId)))
      ensures k !in m2 ==> m[k].kind != Some(Card)
    {
      if k in Keys(cards) {
        var i :| 0 <= i < |cards| && Keys(cards)[i] == k;
        assert cards[i].key == k;
      }
    }
  }

  /** `source_cards` of `move_card` after the sort by order and the filter that
      drops the moved card. */
  function SourceRemainder(m: map<string, Record>, ks: seq<string>, from: string, cardId: string): seq<Item<string>> {
    DropKey(Sort(ByOrder, Select(m, ks, CardsOf(from))), cardId)
  }

  /** `dest_cards` of `move_card` after the sort by order and `insert(card_order, card)`. */
  function DestinationList(m: map<string, Record>, ks: seq<string>, columnId: string, card: Item<string>, cardOrder: int)
    : seq<Item<string>>
  {
    PyInsert(Sort(ByOrder, Select(m, ks, CardsOf(columnId))), cardOrder, card)
  }

  /** A `move_card` call that gets past its early returns: the card exists, it has
      a `column_id`, and it is not already at `card_order` in the destination. */
  predicate MoveProceeds(m: map<string, Record>, cardId: string, columnId: string, cardOrder: int) {
    && cardId in m && m[cardId].kind == Some(Card) && m[cardId].columnId.Some?
    && !(m[cardId].columnId == Some(columnId) && m[cardId].order == Some(cardOrder))
  }

  /** The records after `move_card`: for a move to another column the source
      remainder is renumbered `0..` first; then every entry of the destination
      list, in list order, gets its index as order and the destination as
      `column_id`. */
  function MoveCardEffect(m: map<string, Record>, ks: seq<string>, cardId: string, columnId: string, cardOrder: int,
                          now: string): map<string, Record>
    requires cardId in m && m[cardId].columnId.Some?
  {
    var from := m[cardId].columnId.value;
    var m1 := if from != columnId then SetOrders(m, Keys(SourceRemainder(m, ks, from, cardId)), 0, None, now) else m;
    SetOrders(m1, Keys(DestinationList(m, ks, columnId, Item(cardId, m[cardId]), cardOrder)), 0, Some(columnId), now)
  }

  /** The two renumbering lists of a move from column `f` to column `c`: `xs`
      lists the other cards of `f`, `ys` the cards of `c` and the moved card. */
  ghost predicate MovePlan(m: map<string, Record>, xs: seq<string>, ys: seq<string>, f: string, c: string, cardId: string) {
    && f != c
    && NoDup(xs) && NoDup(ys)
    && cardId in m && Matches(m[cardId], CardsOf(f))
    && cardId !in xs && cardId in ys
    && (forall k :: k in xs ==> k in m && Matches(m[k], CardsOf(f)))
    && (forall k :: k in ys && k != cardId ==> k in m && Matches(m[k], CardsOf(c)))
    && (forall k :: k in m && Matches(m[k], CardsOf(f)) && k != cardId ==> k in xs)
    && (forall k :: k in m && Matches(m[k], CardsOf(c)) ==> k in ys)
  }

  /** What the two renumberings leave under one key. */
  lemma PlanKey(m: map<string, Record>, xs: seq<string>, ys: seq<string>, f: string, c: string, cardId: string,
                now: string, k: string)
    requires MovePlan(m, xs, ys, f, c, cardId) && k in m
    ensures var m2 := SetOrders(SetOrders(m, xs, 0, None, now), ys, 0, Some(c), now);
            && k in m2
            && (Matches(m2[k], CardsOf(f)) <==> k in xs)
            && (Matches(m2[k], CardsOf(c)) <==> k in ys)
            && (k in xs ==> m2[k] == Renumbered(m[k], LastIndex(xs, k), None, now))
            && (k in ys ==> m2[k] == Renumbered(m[k], LastIndex(ys, k), Some(c), now))
            && (k !in xs && k !in ys ==> m2[k] == m[k])
  {
    var m1 := SetOrders(m, xs, 0, None, now);
    SetOrdersValue(m, xs, 0, None, now);
    SetOrdersValue(m1, ys, 0, Some(c), now);
    assert k in ys ==> k !in xs;
  }

  /** The plan of a move to another column holds for the lists `move_card` builds. */
  lemma PlanHolds(m: map<string, Record>, ks: seq<string>, cardId: string, columnId: string, cardOrder: int)
    requires Enumerates(m, ks) && MoveProceeds(m, cardId, columnId, cardOrder)
    requires m[cardId].columnId != Some(columnId)
    ensures var f := m[cardId].columnId.value;
            MovePlan(m, Keys(SourceRemainder(m, ks, f, cardId)),
                     Keys(DestinationList(m, ks, columnId, Item(cardId, m[cardId]), cardOrder)), f, columnId, cardId)
  {
    SourceListFacts(m, ks, m[cardId].columnId.value, cardId);
    DestListFacts(m, ks, columnId, Item(cardId, m[cardId]), cardOrder);
  }

  /** The source list holds, each once, the cards of `f` other than the moved one. */
  lemma SourceListFacts(m: map<string, Record>, ks: seq<string>, f: string, cardId: string)
    requires Enumerates(m, ks)
    ensures var xs := Keys(SourceRemainder(m, ks, f, cardId));
            && NoDup(xs) && cardId !in xs
            && (forall k :: k in xs ==> k in m && Matches(m[k], CardsOf(f)))
            && (forall k :: k in m && Matches(m[k], CardsOf(f)) && k != cardId ==> k in xs)
  {
    var s0 := Select(m, ks, CardsOf(f));
    var xs := Keys(SourceRemainder(m, ks, f, cardId));
    SelectComplete(m, ks, CardsOf(f));
    SortKeysDistinct(ByOrder, s0);
    assert xs == Without(Keys(Sort(ByOrder, s0)), cardId);
    forall k | k in xs ensures k in m && Matches(m[k], CardsOf(f)) {
      SortKeyMembers(ByOrder, s0, k);
      var i :| 0 <= i < |s0| && Keys(s0)[i] == k;
    }
    forall k | k in m && Matches(m[k], CardsOf(f)) && k != cardId ensures k in xs {
      SortKeyMembers(ByOrder, s0, k);
      var i :| 0 <= i < |Sort(ByOrder, s0)| && Keys(Sort(ByOrder, s0))[i] == k;
    }
  }

  /** Every entry of the two renumbering lists of `move_card` is a stored key. */
  lemma MoveListsStored(m: map<string, Record>, ks: seq<string>, from: string, columnId: string,
                        card: Item<string>, cardOrder: int)
    requires Enumerates(m, ks) && card.key in m
    ensures forall k :: k in Keys(SourceRemainder(m, ks, from, card.key)) ==> k in m
    ensures forall k :: k in Keys(DestinationList(m, ks, columnId, card, cardOrder)) ==> k in m
  {
    SourceListFacts(m, ks, from, card.key);
    var s0 := Select(m, ks, CardsOf(columnId));
    KeysPyInsert(Sort(ByOrder, s0), cardOrder, card);
    PyInsertMembers(Keys(Sort(ByOrder, s0)), cardOrder, card.key);
    forall k | k in Keys(Sort(ByOrder, s0)) ensures k in m {
      SortKeyMembers(ByOrder, s0, k);
      var i :| 0 <= i < |s0| && Keys(s0)[i] == k;
    }
  }

  /** The moved card is still a card after `move_card`'s writes. */
  lemma MoveCardKeepsCard(m: map<string, Record>, ks: seq<string>, cardId: string, columnId: string, cardOrder: int,
                          now: string)
    requires cardId in m && m[cardId].kind == Some(Card) && m[cardId].columnId.Some?
    ensures var m2 := MoveCardEffect(m, ks, cardId, columnId, cardOrder, now);
            cardId in m2 && m2[cardId].kind == Some(Card)
  {
    var from := m[cardId].columnId.value;
    var m1 := if from != columnId then SetOrders(m, Keys(SourceRemainder(m, ks, from, cardId)), 0, None, now) else m;
    SetOrdersValue(m, Keys(SourceRemainder(m, ks, from, cardId)), 0, None, now);
    SetOrdersValue(m1, Keys(DestinationList(m, ks, columnId, Item(cardId, m[cardId]), cardOrder)), 0, Some(columnId), now);
  }

  /** `list.insert` on items inserts the key into the list of keys. */
  lemma KeysPyInsert(s: seq<Item<string>>, i: int, x: Item<string>)
    ensures Keys(PyInsert(s, i, x)) == PyInsert(Keys(s), i, x.key)
  {
    var p := InsertIndex(|s|, i);
    KeysAppend(s[..p] + [x], s[p..]);
    KeysAppend(s[..p], [x]);
    assert Keys(s[..p]) == Keys(s)[..p];
    assert Keys(s[p..]) == Keys(s)[p..];
  }

  /** The destination list holds, each once, the cards of `c` and the moved card. */
  lemma DestListFacts(m: map<string, Record>, ks: seq<string>, c: string, card: Item<string>, cardOrder: int)
    requires Enumerates(m, ks) && card.key in m && !Matches(m[card.key], CardsOf(c))
    ensures var ys := Keys(DestinationList(m, ks, c, card, cardOrder));
            && ys == PyInsert(Keys(Sort(ByOrder, Select(m, ks, CardsOf(c)))), cardOrder, card.key)
            && NoDup(ys) && card.key in ys
            && (forall k :: k in ys && k != card.key ==> k in m && Matches(m[k], CardsOf(c)))
            && (forall k :: k in m && Matches(m[k], CardsOf(c)) ==> k in ys)
  {
    var d0 := Select(m, ks, CardsOf(c));
    var sd := Sort(ByOrder, d0);
    var ys := Keys(DestinationList(m, ks, c, card, cardOrder));
    SelectComplete(m, ks, CardsOf(c));
    SortKeysDistinct(ByOrder, d0);
    KeysPyInsert(sd, cardOrder, card);
    PyInsertMembers(Keys(sd), cardOrder, card.key);
    assert card.key !in Keys(sd) by {
      SortKeyMembers(ByOrder, d0, card.key);
      forall i | 0 <= i < |d0| ensures Keys(d0)[i] != card.key {
        assert Keys(d0)[i] == d0[i].key;
      }
    }
    PyInsertDistinct(Keys(sd), cardOrder, card.key);
    forall k | k in ys && k != card.key ensures k in m && Matches(m[k], CardsOf(c)) {
      SortKeyMembers(ByOrder, d0, k);
      var i :| 0 <= i < |d0| && Keys(d0)[i] == k;
    }
    forall k | k in m && Matches(m[k], CardsOf(c)) ensures k in ys {
      SortKeyMembers(ByOrder, d0, k);
    }
  }

  /** A move to another column renumbers exactly two lists: the other cards of
      the source column, in order-sorted sequence, take `0..`; the destination's
      cards with the moved card inserted take `0..` and the destination as
      `column_id`. The source query then lists exactly the first list, the
      destination query exactly the second, and every other record is as it
      was. */
  lemma MoveCardAcross(m: map<string, Record>, ks: seq<string>, cardId: string, columnId: string, cardOrder: int, now: string)
    requires Enumerates(m, ks) && MoveProceeds(m, cardId, columnId, cardOrder)
    requires m[cardId].columnId != Some(columnId)
    ensures var f := m[cardId].columnId.value;
            var m2 := MoveCardEffect(m, ks, cardId, columnId, cardOrder, now);
            var xs := Keys(SourceRemainder(m, ks, f, cardId));
            var ys := Keys(DestinationList(m, ks, columnId, Item(cardId, m[cardId]), cardOrder));
            && m2.Keys == m.Keys
            && (forall k :: k in m ==> (Matches(m2[k], CardsOf(f)) <==> k in xs))
            && (forall k :: k in m ==> (Matches(m2[k], CardsOf(columnId)) <==> k in ys))
            && (forall i :: 0 <= i < |xs| ==> xs[i] in m && m2[xs[i]] == Renumbered(m[xs[i]], i, None, now))
            && (forall i :: 0 <= i < |ys| ==> ys[i] in m && m2[ys[i]] == Renumbered(m[ys[i]], i, Some(columnId), now))
            && (forall k :: k in m && k !in xs && k !in ys ==> m2[k] == m[k])
  {
    var f := m[cardId].columnId.value;
    var xs := Keys(SourceRemainder(m, ks, f, cardId));
    var ys := Keys(DestinationList(m, ks, columnId, Item(cardId, m[cardId]), cardOrder));
    PlanHolds(m, ks, cardId, columnId, cardOrder);
    forall k | k in m
      ensures var m2 := SetOrders(SetOrders(m, xs, 0, None, now), ys, 0, Some(columnId), now);
              && k in m2
              && (Matches(m2[k], CardsOf(f)) <==> k in xs)
              && (Matches(m2[k], CardsOf(columnId)) <==> k in ys)
              && (k in xs ==> m2[k] == Renumbered(m[k], LastIndex(xs, k), None, now))
              && (k in ys ==> m2[k] == Renumbered(m[k], LastIndex(ys, k), Some(columnId), now))
              && (k !in xs && k !in ys ==> m2[k] == m[k])
    {
      PlanKey(m, xs, ys, f, columnId, cardId, now, k);
    }
    forall i | 0 <= i < |xs| ensures LastIndex(xs, xs[i]) == i {
      LastIndexOfDistinct(xs, i);
    }
    forall i | 0 <= i < |ys| ensures LastIndex(ys, ys[i]) == i {
      LastIndexOfDistinct(ys, i);
    }
  }

  /** After a move to another column both columns are dense: the source's
      remaining cards hold `0..m-1`, the destination's cards `0..k`, and the moved
      card sits at the position `list.insert` gives `card_order`. */
  lemma MoveCardDense(m: map<string, Record>, ks: seq<string>, cardId: string, columnId: string, cardOrder: int, now: string)
    requires Enumerates(m, ks) && MoveProceeds(m, cardId, columnId, cardOrder)
    requires m[cardId].columnId != Some(columnId)
    ensures var f := m[cardId].columnId.value;
            var m2 := MoveCardEffect(m, ks, cardId, columnId, cardOrder, now);
            && DenseSeq(Select(m2, ks, CardsOf(f)))
            && DenseSeq(Select(m2, ks, CardsOf(columnId)))
            && |Select(m2, ks, CardsOf(columnId))| == |Select(m, ks, CardsOf(columnId))| + 1
            && m2[cardId].columnId == Some(columnId)
            && m2[cardId].order == Some(InsertIndex(|Select(m, ks, CardsOf(columnId))|, cardOrder))
  {
    var f := m[cardId].columnId.value;
    var m2 := MoveCardEffect(m, ks, cardId, columnId, cardOrder, now);
    var xs := Keys(SourceRemainder(m, ks, f, cardId));
    var ys := Keys(DestinationList(m, ks, columnId, Item(cardId, m[cardId]), cardOrder));
    PlanHolds(m, ks, cardId, columnId, cardOrder);
    MoveCardAcross(m, ks, cardId, columnId, cardOrder, now);
    DestListFacts(m, ks, columnId, Item(cardId, m[cardId]), cardOrder);
    forall k | k in xs ensures k in m2 && m2[k].order == Some(LastIndex(xs, k)) {
      var i := LastIndex(xs, k);
      LastIndexOfDistinct(xs, i);
    }
    forall k | k in ys ensures k in m2 && m2[k].order == Some(LastIndex(ys, k)) {
      var i := LastIndex(ys, k);
      LastIndexOfDistinct(ys, i);
    }
    DenseQuery(m2, ks, CardsOf(f), xs);
    DenseQuery(m2, ks, CardsOf(columnId), ys);
    var n := |Select(m, ks, CardsOf(columnId))|;
    var p := InsertIndex(n, cardOrder);
    assert ys[p] == cardId;
    LastIndexOfDistinct(ys, p);
  }

  /** A move within one column inserts the card into a list that still holds it:
      the list has one entry more than the column has cards, and the card ends
      with the order of its later entry, in its column. */
  lemma MoveCardSameColumn(m: map<string, Record>, ks: seq<string>, cardId: string, columnId: string, cardOrder: int, now: string)
    requires Enumerates(m, ks) && MoveProceeds(m, cardId, columnId, cardOrder)
    requires m[cardId].columnId == Some(columnId)
    ensures var ys := Keys(DestinationList(m, ks, columnId, Item(cardId, m[cardId]), cardOrder));
            var m2 := MoveCardEffect(m, ks, cardId, columnId, cardOrder, now);
            && |ys| == |Select(m, ks, CardsOf(columnId))| + 1
            && cardId in m2
            && m2[cardId] == Renumbered(m[cardId], LastIndex(ys, cardId), Some(columnId), now)
  {
    var sorted := Sort(ByOrder, Select(m, ks, CardsOf(columnId)));
    var card := Item(cardId, m[cardId]);
    var ys := Keys(DestinationList(m, ks, columnId, card, cardOrder));
    KeysPyInsert(sorted, cardOrder, card);
    assert |ys| == |sorted| + 1;
    var p := InsertIndex(|sorted|, cardOrder);
    assert ys[p] == cardId;
    assert MoveCardEffect(m, ks, cardId, columnId, cardOrder, now) == SetOrders(m, ys, 0, Some(columnId), now);
    RenumberedMovedCard(m, ys, cardId, columnId, now);
  }

  /** The moved card's record after the destination list `ys` is renumbered. */
  lemma RenumberedMovedCard(m: map<string, Record>, ys: seq<string>, cardId: string, columnId: string, now: string)
    requires cardId in ys && cardId in m
    ensures cardId in SetOrders(m, ys, 0, Some(columnId), now)
    ensures SetOrders(m, ys, 0, Some(columnId), now)[cardId] == Renumbered(m[cardId], LastIndex(ys, cardId), Some(columnId), now)
  {
    SetOrdersOf(m, ys, 0, Some(columnId), now, cardId);
  }

  /** The destination list of a same-column move as `move_card` builds it, on
      keys: the card is inserted although the list still holds it. */
  function SameColumnListAsWritten(dest: seq<string>, id: string, pos: int): seq<string> {
    PyInsert(dest, pos, id)
  }

  /** Moving the first of three cards to position 2 gives the list `a b a c`: `c`
      is renumbered 3 in a column of three cards, and no card holds order 0. */
  lemma SameColumnMoveLeavesGap()
    ensures var l := SameColumnListAsWritten(["a", "b", "c"], "a", 2);
            && l == ["a", "b", "a", "c"]
            && LastIndex(l, "c") == 3
            && LastIndex(l, "a") == 2 && LastIndex(l, "b") == 1
  {
    var l := SameColumnListAsWritten(["a", "b", "c"], "a", 2);
    assert l == ["a", "b"] + ["a"] + ["c"];
    assert l[3] == "c" && l[2] == "a" && l[1] == "b";
  }

  /** The evidently intended list: the card is taken out before it is inserted. */
  function SameColumnList(dest: seq<string>, id: string, pos: int): seq<string> {
    PyInsert(Without(dest, id), pos, id)
  }

  /** The intended list renumbers the column densely: it holds the column's cards,
      each once, as many entries as cards, with the moved card at the `list.insert`
      position among the others. */
  lemma SameColumnListIsDense(dest: seq<string>, id: string, pos: int)
    requires NoDup(dest) && id in dest
    ensures var l := SameColumnList(dest, id, pos);
            && NoDup(l) && |l| == |dest|
            && (forall k :: k in l <==> k in dest)
            && l[InsertIndex(|dest| - 1, pos)] == id
            && (forall k :: k in l ==> LastIndex(l, k) < |dest|)
  {
    var w := Without(dest, id);
    WithoutOfDistinct(dest, id);
    PyInsertDistinct(w, pos, id);
    PyInsertMembers(w, pos, id);
  }
}
