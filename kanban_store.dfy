/** The adapter the GraphQL API uses (`kanban_backend/boards/dynamodb.py`): a single
    board, insertion that shifts later cards, the sibling rotation of `move_column`,
    dense renumbering in `move_card`, relocation of a deleted column's cards, and
    the repair pass that backfills missing orders. Items are keyed by id alone. */
module KanbanStore {
  import opened Records
  import opened Sequences
  import opened Sorting
  import opened Ordering
  import opened Tables
  import opened Rotation
  import opened KanbanCards
  import opened KanbanRepair

  /** The exceptions the adapter raises. */
  datatype Error = NotFound | NoBoardId | DuplicateTitle | NoRelocationTarget | KeyMismatch | KeyAttributeSet

  datatype Outcome<T> = Ok(value: T) | Raised(error: Error)

  /** Some card in the list already has this title. */
  predicate TitleTaken(cards: seq<Item<string>>, title: string) {
    exists i :: 0 <= i < |cards| && cards[i].rec.title == Some(title)
  }

  /** The first list position `create_card` rewrites (it rewrites every position
      `i >= order`). */
  function ShiftStart(n: nat, order: int): (s: nat)
    ensures s <= n
    ensures order <= 0 ==> s == 0
    ensures 0 <= order <= n ==> s == order
    ensures order >= n ==> s == n
  {
    if order < 0 then 0 else if order > n then n else order
  }

  /** The records after `create_card` inserts `id` with `order` into a column whose
      cards the query listed as `cards`. */
  function CreateCardEffect(m: map<string, Record>, cards: seq<Item<string>>, id: string, columnId: string,
                            title: string, description: string, order: int, now: string): map<string, Record>
    requires forall i :: 0 <= i < |cards| ==> cards[i].key in m
  {
    var s := ShiftStart(|cards|, order);
    SetOrders(m, Keys(cards)[s..], s + 1, None, now)[id := CardRecord(columnId, title, description, Some(order), now)]
  }

  /** What `create_card` does to the column it inserts into: the new card holds
      the given order, a card at list position `i >= order` gets order `i + 1`
      and the new `updated_at` and keeps everything else, a card at a position
      before `order` and every record outside the column are left as they were. */
  lemma CreateCardShifts(m: map<string, Record>, cards: seq<Item<string>>, id: string, columnId: string, title: string,
                         description: string, order: int, now: string)
    requires NoDup(Keys(cards)) && id !in m
    requires forall i :: 0 <= i < |cards| ==> cards[i].key in m && m[cards[i].key] == cards[i].rec
    ensures var m1 := CreateCardEffect(m, cards, id, columnId, title, description, order, now);
            && m1.Keys == m.Keys + {id}
            && m1[id] == CardRecord(columnId, title, description, Some(order), now)
            && (forall i :: 0 <= i < |cards| && i < order ==> m1[cards[i].key] == cards[i].rec)
            && (forall i :: 0 <= i < |cards| && i >= order ==>
                  m1[cards[i].key] == cards[i].rec.(order := Some(i + 1), updatedAt := Some(now)))
            && (forall k :: k in m && k !in Keys(cards) ==> m1[k] == m[k])
  {
    var st := ShiftStart(|cards|, order);
    var m1 := CreateCardEffect(m, cards, id, columnId, title, description, order, now);
    SuffixRenumbered(m, cards, st, now);
    forall i | 0 <= i < |cards| && i < order ensures m1[cards[i].key] == cards[i].rec {
      assert i < st && cards[i].key != id;
    }
    forall i | 0 <= i < |cards| && i >= order
      ensures m1[cards[i].key] == cards[i].rec.(order := Some(i + 1), updatedAt := Some(now))
    {
      assert st <= i && cards[i].key != id;
    }
  }

  /** Renumbering the cards from list position `st` on, starting at `st + 1`. */
  lemma SuffixRenumbered(m: map<string, Record>, cards: seq<Item<string>>, st: nat, now: string)
    requires NoDup(Keys(cards)) && st <= |cards|
    requires forall i :: 0 <= i < |cards| ==> cards[i].key in m && m[cards[i].key] == cards[i].rec
    ensures var m1 := SetOrders(m, Keys(cards)[st..], st + 1, None, now);
            && (forall i :: 0 <= i < st ==> m1[cards[i].key] == cards[i].rec)
            && (forall i :: st <= i < |cards| ==> m1[cards[i].key] == cards[i].rec.(order := Some(i + 1), updatedAt := Some(now)))
            && (forall k :: k in m && k !in Keys(cards) ==> m1[k] == m[k])
  {
    var xs := Keys(cards)[st..];
    var m1 := SetOrders(m, xs, st + 1, None, now);
    forall i | st <= i < |cards| ensures m1[cards[i].key] == cards[i].rec.(order := Some(i + 1), updatedAt := Some(now)) {
      SuffixEntry(m, cards, st, now, i);
    }
    forall i | 0 <= i < st ensures m1[cards[i].key] == cards[i].rec {
      assert cards[i].key !in xs by {
        forall j | 0 <= j < |xs| ensures xs[j] != cards[i].key {
          assert Keys(cards)[j + st] != Keys(cards)[i];
        }
      }
      SetOrdersUntouched(m, xs, cards[i].key, st + 1, None, now);
    }
    forall k | k in m && k !in Keys(cards) ensures m1[k] == m[k] {
      assert k !in xs;
      SetOrdersUntouched(m, xs, k, st + 1, None, now);
    }
  }

  /** One card of the renumbered suffix: the `i`-th card takes order `i + 1`. */
  lemma SuffixEntry(m: map<string, Record>, cards: seq<Item<string>>, st: nat, now: string, i: nat)
    requires NoDup(Keys(cards)) && st <= i < |cards|
    requires cards[i].key in m && m[cards[i].key] == cards[i].rec
    ensures SetOrders(m, Keys(cards)[st..], st + 1, None, now)[cards[i].key] == cards[i].rec.(order := Some(i + 1), updatedAt := Some(now))
  {
    var xs := Keys(cards)[st..];
    assert xs[i - st] == cards[i].key;
    LastIndexOfDistinct(xs, i - st);
    SetOrdersOf(m, xs, st + 1, None, now, cards[i].key);
  }

  /** An omitted order (`len(cards)`) appends: no existing record is rewritten. */
  lemma CreateCardAppends(m: map<string, Record>, ks: seq<string>, id: string, columnId: string, title: string,
                          description: string, now: string)
    requires Enumerates(m, ks) && id !in m
    ensures var cards := Select(m, ks, CardsOf(columnId));
            CreateCardEffect(m, cards, id, columnId, title, description, |cards|, now)
              == m[id := CardRecord(columnId, title, description, Some(|cards|), now)]
  {
    var cards := Select(m, ks, CardsOf(columnId));
    assert Keys(cards)[|cards|..] == [];
  }

  /** The records after a default board and its three columns are written. */
  function NewBoardEffect(m: map<string, Record>, boardId: string, kind: Kind, name: string,
                          columnIds: seq<string>, now: string): map<string, Record>
    requires |columnIds| == 3
  {
    m[boardId := BoardRecord(kind, name, now)]
     [columnIds[0] := ColumnRecord(boardId, DefaultColumns[0].0, Some(DefaultColumns[0].1), now)]
     [columnIds[1] := ColumnRecord(boardId, DefaultColumns[1].0, Some(DefaultColumns[1].1), now)]
     [columnIds[2] := ColumnRecord(boardId, DefaultColumns[2].0, Some(DefaultColumns[2].1), now)]
  }

  /** The duplicate-title scan of `create_card`. */
  method FindTitle(cards: seq<Item<string>>, title: string) returns (taken: bool)
    ensures taken <==> TitleTaken(cards, title)
  {
    var j := 0;
    while j < |cards|
      invariant 0 <= j <= |cards|
      invariant forall i :: 0 <= i < j ==> cards[i].rec.title != Some(title)
    {
      if cards[j].rec.title == Some(title) {
        return true;
      }
      j := j + 1;
    }
    return false;
  }

  lemma ShiftStep(m: map<string, Record>, cards: seq<Item<string>>, s: nat, i: nat, now: string)
    requires s <= i < |cards| && NoDup(Keys(cards))
    requires forall j :: 0 <= j < |cards| ==> cards[j].key in m && m[cards[j].key] == cards[j].rec
    ensures SetOrders(m, Keys(cards)[s..i + 1], s + 1, None, now)
         == SetOrders(m, Keys(cards)[s..i], s + 1, None, now)[cards[i].key := cards[i].rec.(order := Some(i + 1), updatedAt := Some(now))]
  {
    var done := Keys(cards)[s..i];
    var k := cards[i].key;
    assert Keys(cards)[s..i + 1] == done + [k];
    assert k !in done;
    SetOrdersSnoc(m, done, k, s + 1, None, now);
    SetOrdersUntouched(m, done, k, s + 1, None, now);
  }

  /** The state of the shift loop of `create_card` after its first `i` passes. */
  ghost predicate ShiftedUpTo(m0: map<string, Record>, cards: seq<Item<string>>, s: nat, i: nat, now: string,
                              m: map<string, Record>)
    requires i <= |cards| && s <= |cards|
  {
    && (i <= s ==> m == m0)
    && (s <= i ==> m == SetOrders(m0, Keys(cards)[s..i], s + 1, None, now))
  }

  /** One pass of the shift loop: position `i` is rewritten exactly when `i >= order`. */
  lemma ShiftAdvance(m0: map<string, Record>, cards: seq<Item<string>>, order: int, i: nat, now: string,
                     before: map<string, Record>, after: map<string, Record>)
    requires i < |cards| && NoDup(Keys(cards))
    requires forall j :: 0 <= j < |cards| ==> cards[j].key in m0 && m0[cards[j].key] == cards[j].rec
    requires ShiftedUpTo(m0, cards, ShiftStart(|cards|, order), i, now, before)
    requires after == if i >= order then before[cards[i].key := cards[i].rec.(order := Some(i + 1), updatedAt := Some(now))] else before
    ensures ShiftedUpTo(m0, cards, ShiftStart(|cards|, order), i + 1, now, after)
  {
    var s := ShiftStart(|cards|, order);
    if i >= order {
      ShiftStep(m0, cards, s, i, now);
    } else {
      assert Keys(cards)[s..s] == [];
    }
  }

  /** The loop of `_shift_orders` ends with every card from `s` on shifted. */
  lemma ShiftDone(m0: map<string, Record>, cards: seq<Item<string>>, s: nat, now: string, m: map<string, Record>)
    requires s <= |cards| && ShiftedUpTo(m0, cards, s, |cards|, now, m)
    ensures m == SetOrders(m0, Keys(cards)[s..], s + 1, None, now)
  {
    assert Keys(cards)[s..|cards|] == Keys(cards)[s..];
  }

  /** The column being moved is among its board's columns. */
  lemma MovedColumnListed(m: map<string, Record>, ks: seq<string>, columnId: string)
    requires Enumerates(m, ks) && columnId in m && m[columnId].kind == Some(Column) && m[columnId].boardId.Some?
    ensures columnId in Keys(Select(m, ks, ColumnsOf(m[columnId].boardId.value)))
    ensures NoDup(Keys(Select(m, ks, ColumnsOf(m[columnId].boardId.value))))
  {
    SelectComplete(m, ks, ColumnsOf(m[columnId].boardId.value));
  }

  /** A column `move_column` accepts: an item of type column with a non-empty
      `board_id`. */
  predicate Movable(m: map<string, Record>, columnId: string) {
    columnId in m && m[columnId].kind == Some(Column) && Truthy(m[columnId].boardId)
  }

  /** The position of the moved column in its board's column list. */
  ghost function MovedPosition(m: map<string, Record>, ks: seq<string>, columnId: string): (p: nat)
    requires Enumerates(m, ks) && Movable(m, columnId)
    ensures var cols := Select(m, ks, ColumnsOf(m[columnId].boardId.value));
            p < |cols| && cols[p].key == columnId && cols[p].rec == m[columnId]
  {
    MovedColumnListed(m, ks, columnId);
    LastIndex(Keys(Select(m, ks, ColumnsOf(m[columnId].boardId.value))), columnId)
  }

  /** The records after the batch of rotation puts over the board's columns. */
  function ColumnsRotated(m: map<string, Record>, ks: seq<string>, columnId: string, target: int, now: string): map<string, Record>
    requires Movable(m, columnId)
  {
    var b := m[columnId].boardId.value;
    RotateColumns(m, Select(m, ks, ColumnsOf(b)), columnId, OrderKey(m[columnId]), target, b, now)
  }

  /** The records after `move_column`: the rotation, then the moved column's cards
      renumbered in query order. */
  function MoveColumnEffect(m: map<string, Record>, ks: seq<string>, columnId: string, target: int, now: string): map<string, Record>
    requires Movable(m, columnId)
  {
    var m1 := ColumnsRotated(m, ks, columnId, target, now);
    SetOrders(m1, Keys(Select(m1, ks, CardsOf(columnId))), 0, None, now)
  }

  /** The rotation rewrites only the board's columns, each keeping its type, board
      and name, and adds no key. */
  lemma ColumnsRotatedFacts(m: map<string, Record>, ks: seq<string>, columnId: string, target: int, now: string)
    requires Enumerates(m, ks) && Movable(m, columnId)
    ensures var b := m[columnId].boardId.value;
            var cols := Select(m, ks, ColumnsOf(b));
            var m1 := ColumnsRotated(m, ks, columnId, target, now);
            && m1.Keys == m.Keys
            && (forall k :: k in m && k !in Keys(cols) ==> m1[k] == m[k])
            && (forall i :: 0 <= i < |cols| ==>
                  && m1[cols[i].key].kind == Some(Column)
                  && m1[cols[i].key].boardId == Some(b)
                  && m1[cols[i].key].name == cols[i].rec.name
                  && OrderKey(m1[cols[i].key]) == Rotate(OrderKeysOf(cols), MovedPosition(m, ks, columnId), target)[i])
  {
    var b := m[columnId].boardId.value;
    var cols := Select(m, ks, ColumnsOf(b));
    MovedColumnListed(m, ks, columnId);
    var p := MovedPosition(m, ks, columnId);
    RotateColumnsValue(m, cols, columnId, OrderKey(m[columnId]), target, b, now);
    forall i | 0 <= i < |cols|
      ensures var m1 := ColumnsRotated(m, ks, columnId, target, now);
              && m1[cols[i].key].kind == Some(Column)
              && m1[cols[i].key].boardId == Some(b)
              && m1[cols[i].key].name == cols[i].rec.name
              && OrderKey(m1[cols[i].key]) == Rotate(OrderKeysOf(cols), p, target)[i]
    {
      RotatedRecordAt(m, cols, p, target, b, now, i);
    }
  }

  /** One stored key through the renumbering that follows the rotation `m1` of
      the listed columns `cols`: it is one of the board's columns afterwards
      exactly when it was before, a column keeps its rotated record, and a key
      that is neither a listed column nor one of column `c`'s cards keeps its
      original record. */
  lemma RenumberedKey(m: map<string, Record>, m1: map<string, Record>, ks: seq<string>, cols: seq<Item<string>>,
                      b: string, c: string, now: string, k: string)
    requires k in m && m1.Keys == m.Keys
    requires forall i :: 0 <= i < |cols| ==> cols[i].key in m && Matches(m[cols[i].key], ColumnsOf(b))
    requires forall i :: 0 <= i < |cols| ==> Matches(m1[cols[i].key], ColumnsOf(b))
    requires forall x :: x in m && x !in Keys(cols) ==> m1[x] == m[x]
    ensures var m2 := SetOrders(m1, Keys(Select(m1, ks, CardsOf(c))), 0, None, now);
            && (Matches(m2[k], ColumnsOf(b)) <==> Matches(m[k], ColumnsOf(b)))
            && (Matches(m[k], ColumnsOf(b)) ==> m2[k] == m1[k])
            && (k !in Keys(cols) && !Matches(m[k], CardsOf(c)) ==> m2[k] == m[k])
  {
    var q := Select(m1, ks, CardsOf(c));
    SetOrdersValue(m1, Keys(q), 0, None, now);
    if k in Keys(q) {
      var j :| 0 <= j < |q| && Keys(q)[j] == k;
      assert Matches(m1[k], CardsOf(c));
    }
    if k in Keys(cols) {
      var i :| 0 <= i < |cols| && Keys(cols)[i] == k;
      assert cols[i].key == k;
    }
  }

  /** `move_column` on the board's columns: the moved column takes `target`; when
      it moves later, the siblings with `current < o <= target` take `o - 1`;
      otherwise those with `target <= o < current` take `o + 1`; every column keeps
      its type, board and name; the board's column list is the same list. Nothing
      else but the moved column's cards changes. */
  lemma MoveColumnRotates(m: map<string, Record>, ks: seq<string>, columnId: string, target: int, now: string)
    requires Enumerates(m, ks) && Movable(m, columnId)
    ensures var b := m[columnId].boardId.value;
            var cols := Select(m, ks, ColumnsOf(b));
            var m2 := MoveColumnEffect(m, ks, columnId, target, now);
            var after := Select(m2, ks, ColumnsOf(b));
            && m2.Keys == m.Keys
            && Keys(after) == Keys(cols)
            && (forall i :: 0 <= i < |cols| ==>
                  && after[i].rec.kind == Some(Column)
                  && after[i].rec.name == cols[i].rec.name
                  && OrderKey(after[i].rec) == Rotate(OrderKeysOf(cols), MovedPosition(m, ks, columnId), target)[i])
            && (forall k :: k in m && k !in Keys(cols) && !Matches(m[k], CardsOf(columnId)) ==> m2[k] == m[k])
  {
    var b := m[columnId].boardId.value;
    var cols := Select(m, ks, ColumnsOf(b));
    var m1 := ColumnsRotated(m, ks, columnId, target, now);
    ColumnsRotatedFacts(m, ks, columnId, target, now);
    var xs := Keys(Select(m1, ks, CardsOf(columnId)));
    var m2 := SetOrders(m1, xs, 0, None, now);
    forall k | k in m
      ensures Matches(m2[k], ColumnsOf(b)) <==> Matches(m[k], ColumnsOf(b))
      ensures Matches(m[k], ColumnsOf(b)) ==> m2[k] == m1[k]
      ensures k !in Keys(cols) && !Matches(m[k], CardsOf(columnId)) ==> m2[k] == m[k]
    {
      RenumberedKey(m, m1, ks, cols, b, columnId, now, k);
    }
    SelectFrame(m, m2, ks, ColumnsOf(b));
    var after := Select(m2, ks, ColumnsOf(b));
    forall i | 0 <= i < |cols|
      ensures after[i].rec.kind == Some(Column) && after[i].rec.name == cols[i].rec.name
      ensures OrderKey(after[i].rec) == Rotate(OrderKeysOf(cols), MovedPosition(m, ks, columnId), target)[i]
    {
      assert after[i].key == cols[i].key;
    }
  }

  /** When the board's column orders are a permutation of `0..n-1` and
      `0 <= target < n`, they are one after the move too. */
  lemma MoveColumnKeepsPermutation(m: map<string, Record>, ks: seq<string>, columnId: string, target: int, now: string)
    requires Enumerates(m, ks) && Movable(m, columnId)
    requires IsPermutation(OrderKeysOf(Select(m, ks, ColumnsOf(m[columnId].boardId.value))))
    requires 0 <= target < |Select(m, ks, ColumnsOf(m[columnId].boardId.value))|
    ensures var b := m[columnId].boardId.value;
            IsPermutation(OrderKeysOf(Select(MoveColumnEffect(m, ks, columnId, target, now), ks, ColumnsOf(b))))
  {
    var b := m[columnId].boardId.value;
    var cols := Select(m, ks, ColumnsOf(b));
    MoveColumnRotates(m, ks, columnId, target, now);
    var p := MovedPosition(m, ks, columnId);
    RotationKeepsPermutation(OrderKeysOf(cols), p, target);
    var after := Select(MoveColumnEffect(m, ks, columnId, target, now), ks, ColumnsOf(b));
    assert |after| == |cols| by {
      assert |Keys(after)| == |Keys(cols)|;
    }
    assert OrderKeysOf(after) == Rotate(OrderKeysOf(cols), p, target);
  }

  /** The rotation touches no item that is not a column, and leaves every column
      a column. */
  lemma RotationSparesNonColumns(m: map<string, Record>, ks: seq<string>, columnId: string, target: int, now: string)
    requires Enumerates(m, ks) && Movable(m, columnId)
    ensures var m1 := ColumnsRotated(m, ks, columnId, target, now);
            && m1.Keys == m.Keys
            && (forall k :: k in m && m[k].kind != Some(Column) ==> m1[k] == m[k])
            && (forall k :: k in m && m[k].kind == Some(Column) ==> m1[k].kind == Some(Column))
  {
    var b := m[columnId].boardId.value;
    var cols := Select(m, ks, ColumnsOf(b));
    var m1 := ColumnsRotated(m, ks, columnId, target, now);
    ColumnsRotatedFacts(m, ks, columnId, target, now);
    forall k | k in m
      ensures m[k].kind != Some(Column) ==> m1[k] == m[k]
      ensures m[k].kind == Some(Column) ==> m1[k].kind == Some(Column)
    {
      if k in Keys(cols) {
        var i :| 0 <= i < |cols| && Keys(cols)[i] == k;
      }
    }
  }

  /** After the rotation, `move_column` gives the moved column's cards the orders
      `0..k-1` in query order, leaves them in that column, and changes no other
      card. */
  lemma MoveColumnRenumbersCards(m: map<string, Record>, ks: seq<string>, columnId: string, target: int, now: string)
    requires Enumerates(m, ks) && Movable(m, columnId)
    ensures var m2 := MoveColumnEffect(m, ks, columnId, target, now);
            var cards := Select(m, ks, CardsOf(columnId));
            var v := Select(m2, ks, CardsOf(columnId));
            && Keys(v) == Keys(cards)
            && (forall i :: 0 <= i < |v| ==> v[i].rec == cards[i].rec.(order := Some(i), updatedAt := Some(now)))
            && (forall k :: k in m && m[k].kind == Some(Card) && m[k].columnId != Some(columnId) ==> m2[k] == m[k])
  {
    var m1 := ColumnsRotated(m, ks, columnId, target, now);
    RotationSparesNonColumns(m, ks, columnId, target, now);
    SelectUnchanged(m, m1, ks, CardsOf(columnId));
    var cards := Select(m, ks, CardsOf(columnId));
    var xs := Keys(cards);
    RenumberQueryRecords(m1, ks, CardsOf(columnId), now);
    forall k | k in m && m[k].kind == Some(Card) && m[k].columnId != Some(columnId)
      ensures SetOrders(m1, xs, 0, None, now)[k] == m[k]
    {
      assert k !in xs by {
        forall i | 0 <= i < |xs| ensures xs[i] != k {
          assert cards[i].key == xs[i];
        }
      }
      SetOrdersUntouched(m1, xs, k, 0, None, now);
    }
  }

  /** The key schema the adapter creates its table with: the single hash key `id`. */
  const TableKeySchema: set<string> := {"id"}

  /** The attributes a request's `Key` names: `{'id'}`, or `{'id', 'type'}`
      when it also names a type. */
  function KeyNames(kind: Option<Kind>): set<string> {
    if kind.Some? then {"id", "type"} else {"id"}
  }

  /** `get_item`: DynamoDB refuses a key whose attributes are not the table's
      key schema. Otherwise it returns the item stored under the key, if any. */
  function GetItem(schema: set<string>, m: map<string, Record>, id: string, kind: Option<Kind>): (r: Outcome<Option<Record>>)
    ensures r.Raised? <==> schema != KeyNames(kind)
    ensures r.Ok? && r.value.Some? ==> id in m && r.value.value == m[id] && (kind.Some? ==> m[id].kind == kind)
    ensures r.Ok? && r.value.None? ==> id !in m || (kind.Some? && m[id].kind != kind)
  {
    if schema != KeyNames(kind) then Raised(KeyMismatch)
    else if id in m && (kind.None? || m[id].kind == kind) then Ok(Some(m[id]))
    else Ok(None)
  }

  /** `update_item`: refused when its key does not fit the schema, or when its
      SET clause names a key attribute. */
  function UpdateRefusal(schema: set<string>, kind: Option<Kind>, setNames: seq<string>): (r: Option<Error>)
    ensures r.None? <==> schema == KeyNames(kind) && forall i :: 0 <= i < |setNames| ==> setNames[i] !in schema
  {
    if schema != KeyNames(kind) then Some(KeyMismatch)
    else if exists i :: 0 <= i < |setNames| && setNames[i] in schema then Some(KeyAttributeSet)
    else None
  }

  function Present(name: string, present: bool): seq<string> {
    if present then [name] else []
  }

  /** The attributes `update_card` copies into its SET clause: every attribute
      of the stored item except `title`, `description`, `updated_at` and
      `type`. The item always carries its key `id`. */
  function CopiedAttributes(card: Record): (r: seq<string>)
    ensures "id" in r && "type" !in r
  {
    ["id"] + Present("board_id", card.boardId.Some?) + Present("column_id", card.columnId.Some?) + Present("name", card.name.Some?)
      + Present("order", card.order.Some?) + Present("created_at", card.createdAt.Some?)
  }

  /** `update_card` as written: a typed `get_item`, then an `update_item` whose
      SET clause holds the copied attributes. */
  function UpdateCardAsWritten(schema: set<string>, m: map<string, Record>, cardId: string, title: string,
                               description: Option<string>, now: string): Outcome<Item<string>>
  {
    match GetItem(schema, m, cardId, Some(Card))
    case Raised(e) => Raised(e)
    case Ok(None) => Raised(NotFound)
    case Ok(Some(card)) =>
      match UpdateRefusal(schema, Some(Card), ["title", "description", "updated_at"] + CopiedAttributes(card))
      case Some(e) => Raised(e)
      case None => Ok(Item(cardId, card.(title := Some(title), description := Some(description.GetOr("")), updatedAt := Some(now), kind := Some(Card))))
  }

  /** Whatever the key schema, `update_card` as written raises, so it never
      writes: on the adapter's id-only table the typed key is refused, and on a
      table keyed by `id` and `type` the SET clause names the key `id`. */
  lemma UpdateCardAsWrittenRaises(schema: set<string>, m: map<string, Record>, cardId: string, title: string,
                                  description: Option<string>, now: string)
    ensures UpdateCardAsWritten(schema, m, cardId, title, description, now).Raised?
    ensures schema == TableKeySchema ==> UpdateCardAsWritten(schema, m, cardId, title, description, now) == Raised(KeyMismatch)
    ensures schema == KeyNames(Some(Card)) && cardId in m && m[cardId].kind == Some(Card) ==>
              UpdateCardAsWritten(schema, m, cardId, title, description, now) == Raised(KeyAttributeSet)
  {
    if schema == KeyNames(Some(Card)) && cardId in m && m[cardId].kind == Some(Card) {
      var setNames := ["title", "description", "updated_at"] + CopiedAttributes(m[cardId]);
      assert setNames[3] == "id";
    }
  }

  /** The first step of `move_column` as written: the column is read with a
      typed key. */
  function MoveColumnLookup(schema: set<string>, m: map<string, Record>, columnId: string): Outcome<Record> {
    match GetItem(schema, m, columnId, Some(Column))
    case Raised(e) => Raised(e)
    case Ok(None) => Raised(NotFound)
    case Ok(Some(column)) => Ok(column)
  }

  /** On the adapter's id-only table, `move_column` as written raises at its
      first read, before any write, for every column id. */
  lemma MoveColumnAsWrittenRaises(m: map<string, Record>, columnId: string)
    ensures MoveColumnLookup(TableKeySchema, m, columnId) == Raised(KeyMismatch)
    ensures columnId in m && m[columnId].kind == Some(Column) ==>
              GetItem(KeyNames(None), m, columnId, None) == Ok(Some(m[columnId]))
  {
  }

  /** `delete_card` removes the card from its column's list and renumbers no
      sibling: when the orders were `0..n-1` and the card was not the last,
      the remaining cards are no longer numbered densely. */
  lemma DeleteCardLeavesGap(m: map<string, Record>, ks: seq<string>, cardId: string, columnId: string)
    requires Enumerates(m, ks)
    requires cardId in m && m[cardId].kind == Some(Card) && m[cardId].columnId == Some(columnId)
    requires IsPermutation(OrderKeysOf(Select(m, ks, CardsOf(columnId))))
    requires OrderKey(m[cardId]) < |Select(m, ks, CardsOf(columnId))| - 1
    ensures Select(m - {cardId}, Without(ks, cardId), CardsOf(columnId)) == DropKey(Select(m, ks, CardsOf(columnId)), cardId)
    ensures !IsPermutation(OrderKeysOf(Select(m - {cardId}, Without(ks, cardId), CardsOf(columnId))))
  {
    SelectDelete(m, ks, cardId, CardsOf(columnId));
    var p := ListedAt(m, ks, cardId, CardsOf(columnId));
    DropEntryLeavesGap(Select(m, ks, CardsOf(columnId)), p);
  }

  /** Where a stored, matching item sits in a query's result. */
  lemma ListedAt(m: map<string, Record>, ks: seq<string>, id: string, s: Selector) returns (p: nat)
    requires Enumerates(m, ks) && id in m && Matches(m[id], s)
    ensures p < |Select(m, ks, s)| && NoDup(Keys(Select(m, ks, s)))
    ensures Select(m, ks, s)[p].key == id && Select(m, ks, s)[p].rec == m[id]
  {
    SelectComplete(m, ks, s);
    p := LastIndex(Keys(Select(m, ks, s)), id);
  }

  lemma DropEntryLeavesGap(cards: seq<Item<string>>, p: nat)
    requires p < |cards| && NoDup(Keys(cards))
    requires IsPermutation(OrderKeysOf(cards)) && OrderKey(cards[p].rec) < |cards| - 1
    ensures !IsPermutation(OrderKeysOf(DropKey(cards, cards[p].key)))
  {
    DropKeyAt(cards, p);
    OrderKeysSplice(cards, p);
    DeletionLeavesGap(OrderKeysOf(cards), p);
  }

  class DynamoDBAdapter {
    const table: Table<string>

    constructor (t: Table<string>)
      ensures table == t
    {
      table := t;
    }

    ghost predicate Valid()
      reads this, table
    {
      table.Valid()
    }

    /** `get_boards`: every item of type board, in index order. */
    function GetBoards(): (r: seq<Item<string>>)
      requires Valid()
      reads this, table
      ensures forall i :: 0 <= i < |r| ==> r[i].key in table.items && r[i].rec == table.items[r[i].key] && r[i].rec.kind == Some(Board)
    {
      table.Query(OfKind(Board))
    }

    /** `get_columns`: the columns whose `board_id` is `boardId`, unsorted. */
    function GetColumns(boardId: string): (r: seq<Item<string>>)
      requires Valid()
      reads this, table
      ensures forall i :: 0 <= i < |r| ==> r[i].key in table.items && r[i].rec == table.items[r[i].key] && r[i].rec.kind == Some(Column) && r[i].rec.boardId == Some(boardId)
    {
      table.Query(ColumnsOf(boardId))
    }

    /** `get_cards`: the cards whose `column_id` is `columnId`, unsorted. */
    function GetCards(columnId: string): (r: seq<Item<string>>)
      requires Valid()
      reads this, table
      ensures forall i :: 0 <= i < |r| ==> r[i].key in table.items && r[i].rec == table.items[r[i].key] && r[i].rec.kind == Some(Card) && r[i].rec.columnId == Some(columnId)
    {
      table.Query(CardsOf(columnId))
    }

    /** `get_card`: the item under `cardId` when it is a card. */
    function GetCard(cardId: string): (r: Option<Record>)
      reads this, table
      ensures r.Some? <==> cardId in table.items && table.items[cardId].kind == Some(Card)
      ensures r.Some? ==> r.value == table.items[cardId]
    {
      if cardId in table.items && table.items[cardId].kind == Some(Card) then Some(table.items[cardId]) else None
    }

    /** `get_card` finds a card exactly when `get_cards` of its column lists it. */
    lemma GetCardListed(cardId: string, columnId: string)
      requires Valid()
      ensures (GetCard(cardId).Some? && GetCard(cardId).value.columnId == Some(columnId)) <==> cardId in Keys(GetCards(columnId))
    {
      SelectComplete(table.items, table.keys, CardsOf(columnId));
      if cardId in Keys(GetCards(columnId)) {
        var i :| 0 <= i < |GetCards(columnId)| && Keys(GetCards(columnId))[i] == cardId;
      }
    }

    /** `create_column`: stores `order or 0`. */
    method CreateColumn(boardId: string, name: string, order: Option<int>, id: string, now: string) returns (r: string)
      requires Valid() && id !in table.items
      modifies table
      ensures Valid() && r == id
      ensures table.items == old(table.items)[id := ColumnRecord(boardId, name, Some(order.GetOr(0)), now)]
      ensures table.keys == old(table.keys) + [id]
    {
      table.Put(id, ColumnRecord(boardId, name, Some(order.GetOr(0)), now));
      r := id;
    }

    /** `create_board`: returns the first existing board when there is one;
        otherwise writes the board and its three default columns. */
    method CreateBoard(name: string, kind: Kind, boardId: string, columnIds: seq<string>, now: string) returns (r: string)
      requires Valid()
      requires |columnIds| == 3 && NoDup(columnIds) && boardId !in columnIds
      requires boardId !in table.items && forall i :: 0 <= i < 3 ==> columnIds[i] !in table.items
      modifies table
      ensures Valid()
      ensures old(GetBoards()) != [] ==> r == old(GetBoards())[0].key && table.items == old(table.items) && table.keys == old(table.keys)
      ensures old(GetBoards()) == [] ==> r == boardId
      ensures old(GetBoards()) == [] ==> table.items == NewBoardEffect(old(table.items), boardId, kind, name, columnIds, now)
      ensures old(GetBoards()) == [] ==> table.keys == old(table.keys) + [boardId] + columnIds
    {
      var boards := GetBoards();
      if boards != [] {
        return boards[0].key;
      }
      assert columnIds[0] != boardId && columnIds[1] != boardId && columnIds[2] != boardId;
      assert columnIds[0] != columnIds[1] && columnIds[0] != columnIds[2] && columnIds[1] != columnIds[2];
      ghost var m0 := table.items;
      ghost var k0 := table.keys;
      table.Put(boardId, BoardRecord(kind, name, now));
      var i := 0;
      while i < |DefaultColumns|
        invariant 0 <= i <= 3
        invariant Valid()
        invariant table.keys == k0 + [boardId] + columnIds[..i]
        invariant forall j :: i <= j < 3 ==> columnIds[j] !in table.items
        invariant i == 0 ==> table.items == m0[boardId := BoardRecord(kind, name, now)]
        invariant i == 1 ==> table.items == m0[boardId := BoardRecord(kind, name, now)]
                                [columnIds[0] := ColumnRecord(boardId, DefaultColumns[0].0, Some(DefaultColumns[0].1), now)]
        invariant i == 2 ==> table.items == m0[boardId := BoardRecord(kind, name, now)]
                                [columnIds[0] := ColumnRecord(boardId, DefaultColumns[0].0, Some(DefaultColumns[0].1), now)]
                                [columnIds[1] := ColumnRecord(boardId, DefaultColumns[1].0, Some(DefaultColumns[1].1), now)]
        invariant i == 3 ==> table.items == NewBoardEffect(m0, boardId, kind, name, columnIds, now)
      {
        var _ := CreateColumn(boardId, DefaultColumns[i].0, Some(DefaultColumns[i].1), columnIds[i], now);
        assert columnIds[..i + 1] == columnIds[..i] + [columnIds[i]];
        i := i + 1;
      }
      r := boardId;
    }

    /** `create_card`: refuses a title already used in the column; an omitted order
        appends; otherwise every card at list position `i >= order` is rewritten
        with order `i + 1` before the new card is stored. */
    method CreateCard(columnId: string, title: string, description: string, order: Option<int>, id: string, now: string)
      returns (r: Outcome<string>)
      requires Valid() && id !in table.items
      modifies table
      ensures Valid()
      ensures TitleTaken(old(GetCards(columnId)), title) ==> r == Raised(DuplicateTitle) && unchanged(table)
      ensures !TitleTaken(old(GetCards(columnId)), title) ==> r == Ok(id)
      ensures !TitleTaken(old(GetCards(columnId)), title) ==>
                table.items == CreateCardEffect(old(table.items), old(GetCards(columnId)), id, columnId, title, description,
                                                order.GetOr(|old(GetCards(columnId))|), now)
                && table.keys == old(table.keys) + [id]
    {
      var cards := GetCards(columnId);
      var taken := FindTitle(cards, title);
      if taken {
        return Raised(DuplicateTitle);
      }
      var o := if order.None? then |cards| else order.value;
      SelectDistinct(table.items, table.keys, CardsOf(columnId));
      ShiftFrom(cards, o, now);
      table.Put(id, CardRecord(columnId, title, description, Some(o), now));
      r := Ok(id);
    }

    /** The loop that rewrites every card at list position `i >= order` with order
        `i + 1`, each as a copy of the queried item. */
    method ShiftFrom(cards: seq<Item<string>>, order: int, now: string)
      requires Valid() && NoDup(Keys(cards))
      requires forall i :: 0 <= i < |cards| ==> cards[i].key in table.items && table.items[cards[i].key] == cards[i].rec
      modifies table
      ensures Valid() && table.keys == old(table.keys)
      ensures table.items == SetOrders(old(table.items), Keys(cards)[ShiftStart(|cards|, order)..], ShiftStart(|cards|, order) + 1, None, now)
    {
      var s := ShiftStart(|cards|, order);
      ghost var m0 := table.items;
      ghost var ks0 := table.keys;
      for i := 0 to |cards|
        invariant Valid() && table.keys == ks0 && table.items.Keys == m0.Keys
        invariant ShiftedUpTo(m0, cards, s, i, now, table.items)
      {
        ghost var before := table.items;
        if i >= order {
          table.Put(cards[i].key, cards[i].rec.(order := Some(i + 1), updatedAt := Some(now)));
        }
        ShiftAdvance(m0, cards, order, i, now, before, table.items);
      }
      ShiftDone(m0, cards, s, now, table.items);
    }

    /** `update_card`: sets the title, `description or ''` and `updated_at`, keeps
        every other attribute, and returns the item with `type` forced to card. */
    method UpdateCard(cardId: string, title: string, description: Option<string>, now: string) returns (r: Outcome<Item<string>>)
      requires Valid()
      modifies table
      ensures Valid() && table.keys == old(table.keys)
      ensures old(GetCard(cardId)).None? ==> r == Raised(NotFound) && unchanged(table)
      ensures old(GetCard(cardId)).Some? ==>
                var updated := old(table.items)[cardId].(title := Some(title), description := Some(description.GetOr("")), updatedAt := Some(now));
                table.items == old(table.items)[cardId := updated] && r == Ok(Item(cardId, updated.(kind := Some(Card))))
      ensures r.Ok? ==> r.value.key == cardId && GetCard(cardId) == Some(r.value.rec)
    {
      var card := table.Get(cardId);
      if card.None? || card.value.kind != Some(Card) {
        return Raised(NotFound);
      }
      var updated := card.value.(title := Some(title), description := Some(description.GetOr("")), updatedAt := Some(now));
      table.Put(cardId, updated);
      r := Ok(Item(cardId, updated.(kind := Some(Card))));
    }

    /** `delete_card`: removes exactly the card; its siblings keep their orders. */
    method DeleteCard(cardId: string) returns (r: Outcome<bool>)
      requires Valid()
      modifies table
      ensures Valid()
      ensures GetCard(cardId) == None
      ensures old(GetCard(cardId)).None? ==> r == Raised(NotFound) && unchanged(table)
      ensures old(GetCard(cardId)).Some? ==>
                r == Ok(true) && table.items == old(table.items) - {cardId} && table.keys == Without(old(table.keys), cardId)
    {
      var card := table.Get(cardId);
      if card.None? || card.value.kind != Some(Card) {
        return Raised(NotFound);
      }
      table.Delete(cardId);
      r := Ok(true);
    }

    /** `delete_column`: refuses a missing item or one that is not a column, a
        column without `board_id`, and a board with no other column; otherwise
        moves the column's cards, one `update_item` each, to the end of the first
        other column and then deletes the column. */
    method DeleteColumn(columnId: string, now: string) returns (r: Outcome<bool>)
      requires Valid()
      modifies table
      ensures Valid()
      ensures !(columnId in old(table.items) && old(table.items)[columnId].kind == Some(Column)) ==>
                r == Raised(NotFound) && unchanged(table)
      ensures columnId in old(table.items) && old(table.items)[columnId].kind == Some(Column) && !Truthy(old(table.items)[columnId].boardId) ==>
                r == Raised(NoBoardId) && unchanged(table)
      ensures Movable(old(table.items), columnId) ==>
                var target := FirstOther(old(GetColumns(table.items[columnId].boardId.value)), columnId);
                && (target.None? ==> r == Raised(NoRelocationTarget) && unchanged(table))
                && (target.Some? ==>
                      && r == Ok(true)
                      && table.items == DeleteColumnEffect(old(table.items), old(table.keys), columnId, target.value, now)
                      && table.keys == Without(old(table.keys), columnId))
    {
      var column := table.Get(columnId);
      if column.None? || column.value.kind != Some(Column) {
        return Raised(NotFound);
      }
      var boardId := column.value.boardId;
      if !Truthy(boardId) {
        return Raised(NoBoardId);
      }
      var columns := GetColumns(boardId.value);
      var target := FirstOther(columns, columnId);
      if target.None? {
        return Raised(NoRelocationTarget);
      }
      var t := target.value;
      var cards := GetCards(columnId);
      RelocateCards(columnId, t, cards, now);
      table.Delete(columnId);
      r := Ok(true);
    }

    /** The loop of `delete_column` that moves each card of `columnId`, in query
        order, to `target` with order `len(get_cards(target))` read afresh. */
    method RelocateCards(columnId: string, target: string, cards: seq<Item<string>>, now: string)
      requires Valid() && target != columnId && cards == GetCards(columnId)
      modifies table
      ensures Valid() && table.keys == old(table.keys)
      ensures table.items == SetOrders(old(table.items), Keys(cards), old(|GetCards(target)|), Some(target), now)
    {
      ghost var m0 := table.items;
      ghost var n := |GetCards(target)|;
      ghost var ks0 := table.keys;
      assert cards == Select(m0, ks0, CardsOf(columnId));
      var i := 0;
      while i < |cards|
        invariant 0 <= i <= |cards|
        invariant Valid() && table.keys == ks0
        invariant table.items == SetOrders(m0, Keys(cards)[..i], n, Some(target), now)
        invariant |GetCards(target)| == n + i
      {
        var targetCards := GetCards(target);
        var newOrder := |targetCards|;
        RelocateStep(m0, ks0, columnId, target, n, now, i);
        var k := cards[i].key;
        var updated := Renumbered(table.items[k], newOrder, Some(target), now);
        SelectCountAdd(table.items, table.keys, k, updated, CardsOf(target));
        ghost var before := table.items;
        table.Put(k, updated);
        RelocateAdvance(m0, ks0, columnId, target, n, now, i, before, table.items, newOrder);
        i := i + 1;
      }
      assert Keys(cards)[..i] == Keys(cards);
    }

    /** `move_card`: `None` for a missing card (and for a card without a
        `column_id`, whose source query the store rejects); the card itself, with
        no write, when it already sits at `card_order` in `column_id`; otherwise the
        source remainder and then the destination list are renumbered in place,
        and the card is read back. */
    method MoveCard(cardId: string, columnId: string, cardOrder: int, now: string) returns (r: Option<Record>)
      requires Valid()
      modifies table
      ensures Valid() && table.keys == old(table.keys)
      ensures old(GetCard(cardId)).None? ==> r.None? && unchanged(table)
      ensures old(GetCard(cardId)).Some? && old(table.items)[cardId].columnId == Some(columnId) &&
              old(table.items)[cardId].order == Some(cardOrder) ==>
                r == old(GetCard(cardId)) && unchanged(table)
      ensures old(GetCard(cardId)).Some? && old(table.items)[cardId].columnId.None? ==> r.None? && unchanged(table)
      ensures MoveProceeds(old(table.items), cardId, columnId, cardOrder) ==>
                && table.items == MoveCardEffect(old(table.items), old(table.keys), cardId, columnId, cardOrder, now)
                && r == Some(table.items[cardId])
    {
      var card := GetCard(cardId);
      if card.None? {
        return None;
      }
      var current := card.value.columnId;
      if current == Some(columnId) && card.value.order == Some(cardOrder) {
        return card;
      }
      var destCards := Sort(ByOrder, GetCards(columnId));
      if current.None? {
        return None;
      }
      ghost var m0 := table.items;
      ghost var ks0 := table.keys;
      MoveListsStored(m0, ks0, current.value, columnId, Item(cardId, card.value), cardOrder);
      MoveCardKeepsCard(m0, ks0, cardId, columnId, cardOrder, now);
      if current != Some(columnId) {
        var sourceCards := DropKey(Sort(ByOrder, GetCards(current.value)), cardId);
        assert sourceCards == SourceRemainder(m0, ks0, current.value, cardId);
        table.Renumber(Keys(sourceCards), 0, None, now);
      }
      destCards := PyInsert(destCards, cardOrder, Item(cardId, card.value));
      assert destCards == DestinationList(m0, ks0, columnId, Item(cardId, card.value), cardOrder);
      table.Renumber(Keys(destCards), 0, Some(columnId), now);
      r := GetCard(cardId);
    }

    /** `_reorder_cards_in_column`: an empty column is left alone; otherwise its
        cards, sorted by order, are renumbered `0..n-1` in place. */
    method ReorderCardsInColumn(columnId: string, now: string)
      requires Valid()
      modifies table
      ensures Valid() && table.keys == old(table.keys)
      ensures table.items == ReorderEffect(old(table.items), old(table.keys), columnId, now)
    {
      var cards := GetCards(columnId);
      if |cards| == 0 {
        assert Keys(Sort(ByOrder, cards)) == [];
        return;
      }
      cards := Sort(ByOrder, cards);
      ReorderListFacts(table.items, table.keys, columnId);
      table.Renumber(Keys(cards), 0, None, now);
    }

    /** `fix_card_orders`: the columns are listed once; then, column by column,
        the cards are sorted by creation time and those without an order get
        their index. */
    method FixCardOrders(now: string) returns (r: bool)
      requires Valid()
      modifies table
      ensures Valid() && table.keys == old(table.keys)
      ensures r && table.items == FixAll(old(table.items), old(table.keys), Keys(old(table.Query(OfKind(Column)))), now)
    {
      var columns := table.Query(OfKind(Column));
      ghost var m0 := table.items;
      ghost var ks0 := table.keys;
      var i := 0;
      while i < |columns|
        invariant 0 <= i <= |columns|
        invariant Valid() && table.keys == ks0
        invariant table.items == FixAll(m0, ks0, Keys(columns)[..i], now)
      {
        var cards := GetCards(columns[i].key);
        cards := Sort(ByCreated, cards);
        forall j | 0 <= j < |cards| ensures cards[j].key in table.items {
          SortMembers(ByCreated, GetCards(columns[i].key), j);
        }
        BackfillColumn(cards, now);
        FixAllStep(m0, ks0, Keys(columns), i, now);
        i := i + 1;
      }
      assert Keys(columns)[..i] == Keys(columns);
      return true;
    }

    /** The `batch_writer` loop of `fix_card_orders` over one column's sorted
        cards: a card whose order is `None` is put back with its index. */
    method BackfillColumn(cards: seq<Item<string>>, now: string)
      requires Valid()
      requires forall j :: 0 <= j < |cards| ==> cards[j].key in table.items
      modifies table
      ensures Valid() && table.keys == old(table.keys)
      ensures table.items == Backfill(old(table.items), cards, now)
    {
      var j := 0;
      while j < |cards|
        invariant 0 <= j <= |cards|
        invariant Valid() && table.keys == old(table.keys)
        invariant table.items == Backfill(old(table.items), cards[..j], now)
      {
        assert cards[..j + 1][..j] == cards[..j];
        if cards[j].rec.order.None? {
          table.Put(cards[j].key, Backfilled(cards[j].rec, j, now));
        }
        j := j + 1;
      }
      assert cards[..j] == cards;
    }

    /** `move_column`: looks the column up, refuses one without a `board_id`,
        rotates the board's columns (whole-item puts) and renumbers the moved
        column's cards in query order. `new_order` is not clamped. */
    method MoveColumn(columnId: string, newOrder: int, now: string) returns (r: Outcome<Item<string>>)
      requires Valid()
      modifies table
      ensures Valid() && table.keys == old(table.keys)
      ensures !(columnId in old(table.items) && old(table.items)[columnId].kind == Some(Column)) ==>
                r == Raised(NotFound) && unchanged(table)
      ensures columnId in old(table.items) && old(table.items)[columnId].kind == Some(Column) && !Truthy(old(table.items)[columnId].boardId) ==>
                r == Raised(NoBoardId) && unchanged(table)
      ensures Movable(old(table.items), columnId) ==>
                var b := old(table.items)[columnId].boardId.value;
                && r == Ok(Item(columnId, Record(Some(Column), Some(b), None, None, None, None, Some(newOrder), None, None)))
                && table.items == MoveColumnEffect(old(table.items), old(table.keys), columnId, newOrder, now)
    {
      var column := table.Get(columnId);
      if column.None? || column.value.kind != Some(Column) {
        return Raised(NotFound);
      }
      var boardId := column.value.boardId;
      if !Truthy(boardId) {
        return Raised(NoBoardId);
      }
      var b := boardId.value;
      var columns := GetColumns(b);
      var current := OrderKey(column.value);
      var updates := BuildUpdates(columns, columnId, current, newOrder);
      SelectDistinct(table.items, table.keys, ColumnsOf(b));
      var puts := ColumnPuts(updates, columns, b, now);
      ColumnsRotatedFacts(table.items, table.keys, columnId, newOrder, now);
      RotateColumnsValue(table.items, columns, columnId, current, newOrder, b, now);
      forall j | 0 <= j < |puts| ensures puts[j].key in table.items {
        assert updates[j].id in Keys(columns) by {
          UpdatesListed(columns, columnId, current, newOrder, j);
        }
      }
      table.PutEach(puts);
      var cards := GetCards(columnId);
      table.Renumber(Keys(cards), 0, None, now);
      r := Ok(Item(columnId, Record(Some(Column), Some(b), None, None, None, None, Some(newOrder), None, None)));
    }
  }
}
