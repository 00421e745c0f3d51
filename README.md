# Kanban board store: the two DynamoDB adapters

The Kanban board application keeps boards, columns and cards in one DynamoDB
table, `kanban_board`. Two classes named `DynamoDBAdapter` write to it:

- `kanban_backend/boards/dynamodb.py` is the adapter the GraphQL API uses. It
  has an id-only key schema. Its policies: board creation returns an existing
  board, inserting a card shifts the later cards, a card move renumbers both
  columns, deleting a column moves its cards elsewhere, and there are two
  repair passes.
- `boards/dynamodb.py` is the adapter the unit tests of the `boards` app use.
  Its key is `id` + `type`. Its policies: orders are stored as given, a moved
  card is appended, and deletes cascade to columns and cards.

The project models both adapters over one shared table model.

- `records.dfy`: an item is a `Record` whose every attribute is optional:
  `type`, `board_id`, `column_id`, `name`, `title`, `description`, `order`,
  `created_at` and `updated_at`. It also defines `order or 0` /
  `x.get('order', 0)` (`OrderKey`) and Python truthiness.
- `tables.dfy`: the table is a class `Table<K>` with `items: map<K, Record>`
  and an enumeration `keys: seq<K>`.
  - The enumeration lists every stored key exactly once, in the order scans
    and index queries return items. DynamoDB leaves that order open, so
    the model fixes it.
  - A query is `Select`, the enumeration filtered by a selector: every item of
    a type, a board's columns, or a column's cards.
  - `Put`, `Delete` and `Renumber` are methods. A renumbering loop
    (`for index, c in enumerate(xs): update order = base + index`) is the fold
    `SetOrders`, in which the last write to a key wins.
- `sequences.dfy`, `sorting.dfy`: Python's `list.insert` (negative and
  too-large indices included), list comprehensions that filter, and
  `list.sort(key=...)` as a stable insertion sort.
- `ordering.dfy`, `rotation.dfy`: the column rotation of `move_column`, on
  order values and on the `updates` list and the puts the method builds.
- `kanban_store.dfy`, `kanban_cards.dfy`, `kanban_repair.dfy`: the API
  adapter.
  - The class `KanbanStore.DynamoDBAdapter` has one method per operation. Its
    loops carry their invariants.
  - Each method's new state is a function of the old state. The lemmas beside
    it prove what the code promises about that function: shifts, rotation,
    relocation, dense renumbering and backfilling.
  - Exceptions are the `Outcome.Raised` values.
- `boards_store.dfy`: the adapter the tests use, as the class
  `BoardsStore.DynamoDBAdapter` over `Table<Key>` with `Key(id, type)`.
  - The getters strip `type`, and `get_columns` sorts by order.
  - The module-level name `logger` is never defined in this file (its imports
    are lines 1-7), so three methods fail at run time. The class models what
    those three methods evidently intend. The functions suffixed `AsWritten`
    model what the code does, and "## Findings" sets the two side by side.

Fresh ids (`uuid.uuid4()`) and timestamps (`datetime.now()`/`utcnow()`) are
parameters. Fresh ids come with a precondition that they are not yet stored.

## Model

| member | source | states |
|---|---|---|
| Records.StrLessTransitive | kanban_backend/boards/dynamodb.py:690 | The string comparison used to sort by `created_at` is transitive. |
| Sequences.LastIndex | kanban_backend/boards/dynamodb.py:616-627 | Of several writes to one key in a loop, the last survives: the index of the last occurrence, after which the key no longer appears. |
| Sequences.Without | kanban_backend/boards/dynamodb.py:598 | The filter `[c for c in s if c['id'] != card_id]` keeps exactly the other entries and removes the id. |
| Sequences.InsertIndex | kanban_backend/boards/dynamodb.py:613 | Where `list.insert` places an element: the index itself when it is in range, the end when it is larger, `i + n` for a negative index from `-n` on, the front below that, and never outside the list. |
| Sequences.PyInsert | kanban_backend/boards/dynamodb.py:613 | `list.insert` adds one entry at `InsertIndex`. Entries before it stay, and entries after it move up by one. |
| Sequences.PyInsertDistinct | kanban_backend/boards/dynamodb.py:613 | Inserting a new element into a duplicate-free list keeps it duplicate-free. |
| Sorting.Sort | kanban_backend/boards/dynamodb.py:589 | `list.sort` gives a permutation (equal multisets) of its input. |
| Sorting.SortSorted | kanban_backend/boards/dynamodb.py:645 | The sorted list is ordered by the key (`order` with 0 for a missing one, or `created_at`). |
| Sorting.SortOfSorted | kanban_backend/boards/dynamodb.py:645 | Sorting a list that is already in order returns it unchanged. |
| Sorting.SortKeyMembers | boards/dynamodb.py:130 | Sorting keeps exactly the keys of the list. |
| Ordering.RotationKeepsPermutation | kanban_backend/boards/dynamodb.py:393-416 | When the orders are a permutation of `0..n-1` and `0 <= target < n`, they are one after the rotation. |
| Ordering.RotationToSamePlace | kanban_backend/boards/dynamodb.py:393-416 | A move to the current order leaves every order value unchanged. |
| Ordering.RotationRoundTrip | kanban_backend/boards/dynamodb.py:393-416 | Moving a column from `a` to `b` and back to `a` restores every order, when no sibling shares the moved column's order. |
| Ordering.DeletionLeavesGap | kanban_backend/boards/dynamodb.py:467-487 | Deleting a card whose order is not the largest leaves sibling orders that are no longer a permutation of `0..n-2`. |
| Ordering.IncreasingPermutationIsIdentity | kanban_backend/boards/dynamodb.py:645-661 | Strictly increasing orders within `0..n-1` are exactly `0..n-1`. |
| Rotation.ColumnUpdates | kanban_backend/boards/dynamodb.py:393-416 | The `updates` list, in list order, one entry per column that changes: never more entries than listed columns. |
| Rotation.UpdatesListed | kanban_backend/boards/dynamodb.py:393-416 | Every entry of `updates` names a listed column. |
| Rotation.BuildUpdates | kanban_backend/boards/dynamodb.py:392-416 | The loop builds exactly the `updates` list `ColumnUpdates` defines. |
| Rotation.FirstNameOfListed | kanban_backend/boards/dynamodb.py:428 | `next(col['name'] for col ... if col['id'] == id)` finds a listed column's own name. |
| Rotation.RotateColumnsValue | kanban_backend/boards/dynamodb.py:420-429 | After the batch, each listed column holds its rotated item. Every other item is unchanged and no key is added. |
| Rotation.RotatedRecordAt | kanban_backend/boards/dynamodb.py:420-429 | A rotated column keeps its type, board and name, and its order is the one `Rotate` gives its position. |
| Tables.Select | kanban_backend/boards/dynamodb.py:260-277 | A query returns only stored items that match, each with its stored record. |
| Tables.SelectComplete | kanban_backend/boards/dynamodb.py:260-277 | A query returns every matching item, each exactly once. |
| Tables.SelectPutNew | kanban_backend/boards/dynamodb.py:240-259 | After a new item is put, a query returns what it returned before, plus the new item at the end if it matches. |
| Tables.SelectDelete | kanban_backend/boards/dynamodb.py:478-483 | After a delete, a query returns its old result without that item. |
| Tables.SetOrdersValue | kanban_backend/boards/dynamodb.py:648-661 | After a renumbering loop, each listed key holds its record renumbered with the base plus its last list index. Every other key is unchanged. |
| Tables.DenseByRanks | kanban_backend/boards/dynamodb.py:648-661 | Items whose orders are their distinct positions in a list of the same length have orders forming a permutation of `0..n-1`. |
| Tables.RenumberQuery | kanban_backend/boards/dynamodb.py:436-451 | Renumbering a query's own result from 0 leaves the same items matching it, with orders `0..n-1` in query order. |
| Tables.RenumberQueryRecords | kanban_backend/boards/dynamodb.py:436-451 | After that renumbering, the query lists the same keys, and each record has only its order and `updated_at` changed. |
| Tables.PutAllValue | kanban_backend/boards/dynamodb.py:420-429 | A batch of puts leaves each key with its last put item. Every other key is unchanged. |
| Tables.Table.Put | boards/dynamodb.py:61 | `put_item` stores the item under the key. A new key goes to the end of the enumeration, and a stored key keeps its place. |
| Tables.Table.Delete | kanban_backend/boards/dynamodb.py:478-483 | `delete_item` removes the key (a missing key is no error) and keeps the rest of the enumeration in order. |
| Tables.Table.DeleteEach | boards/dynamodb.py:221-233 | A batch of deletes removes exactly the listed keys. |
| Tables.Table.PutEach | boards/dynamodb.py:413-423 | A batch of puts leaves the items `PutAll` gives. |
| Tables.Table.Renumber | kanban_backend/boards/dynamodb.py:648-661 | The renumbering loop leaves the items `SetOrders` gives and keeps the enumeration. |
| KanbanStore.ShiftStart | kanban_backend/boards/dynamodb.py:306-307 | The first list position `create_card` rewrites: 0 for a non-positive order, the order within `0..n`, and `n` (no rewrite) beyond. |
| KanbanStore.CreateCardShifts | kanban_backend/boards/dynamodb.py:296-315 | The new card holds the given order. A card at list position `i >= order` gets order `i + 1` and the new `updated_at`. A card before `order`, and everything outside the column, is unchanged. |
| KanbanStore.CreateCardAppends | kanban_backend/boards/dynamodb.py:288-289 | With the order omitted it is `len(cards)`, and no existing item is rewritten. |
| KanbanStore.FindTitle | kanban_backend/boards/dynamodb.py:281-284 | The duplicate scan finds a title exactly when some card of the column already has it. |
| KanbanStore.MovedPosition | kanban_backend/boards/dynamodb.py:389-390 | The moved column is in its board's column list, with its stored item. |
| KanbanStore.ColumnsRotatedFacts | kanban_backend/boards/dynamodb.py:393-429 | The rotation rewrites only the board's columns. Each keeps its type, board and name and takes the order `Rotate` gives it, and no key is added. |
| KanbanStore.MoveColumnRotates | kanban_backend/boards/dynamodb.py:379-429 | After `move_column` the board lists the same columns. Each has the rotated order with its name kept. Nothing outside those columns and the moved column's cards changes. |
| KanbanStore.MoveColumnKeepsPermutation | kanban_backend/boards/dynamodb.py:393-429 | Column orders that are a permutation of `0..n-1` stay one after a move to `0 <= target < n`. |
| KanbanStore.RotationSparesNonColumns | kanban_backend/boards/dynamodb.py:420-429 | The rotation touches no item that is not a column. |
| KanbanStore.MoveColumnRenumbersCards | kanban_backend/boards/dynamodb.py:432-451 | The moved column's cards keep their column and take orders `0..k-1` in query order. Cards of other columns are unchanged. |
| KanbanStore.DynamoDBAdapter.GetBoards | kanban_backend/boards/dynamodb.py:145-164 | Returns only stored boards, with their stored items. |
| KanbanStore.DynamoDBAdapter.GetColumns | kanban_backend/boards/dynamodb.py:222-238 | Returns only stored columns of the board, unsorted. |
| KanbanStore.DynamoDBAdapter.GetCards | kanban_backend/boards/dynamodb.py:260-276 | Returns only stored cards of the column, unsorted. |
| KanbanStore.DynamoDBAdapter.GetCardListed | kanban_backend/boards/dynamodb.py:557-570 | `get_card` finds a card of a column exactly when `get_cards` of that column lists its id. |
| KanbanStore.DynamoDBAdapter.CreateColumn | kanban_backend/boards/dynamodb.py:240-258 | One put of the column with `order or 0`. Nothing else changes. |
| KanbanStore.DynamoDBAdapter.CreateBoard | kanban_backend/boards/dynamodb.py:166-221 | If a board exists, returns the first listed board's id and writes nothing. Otherwise writes the board and three columns "Por Hacer", "En Progreso" and "Completado" with orders 0, 1, 2. |
| KanbanStore.DynamoDBAdapter.CreateCard | kanban_backend/boards/dynamodb.py:278-319 | A duplicate title raises before any write. Otherwise the siblings are shifted as `CreateCardShifts` states and the new card is stored. |
| KanbanStore.DynamoDBAdapter.ShiftFrom | kanban_backend/boards/dynamodb.py:306-312 | The shift loop renumbers the list from `ShiftStart` on, starting at that position plus one. |
| KanbanStore.DynamoDBAdapter.UpdateCard | kanban_backend/boards/dynamodb.py:323-368 | The intended `update_card`: an id that is missing or not a card raises with no write. Otherwise the title, `description or ''` and `updated_at` are set, everything else is kept, the result is the card with its id and type card, and `get_card` then returns it. |
| KanbanStore.DynamoDBAdapter.DeleteCard | kanban_backend/boards/dynamodb.py:462-490 | A missing id or non-card raises with no write. Otherwise exactly that item is removed and no sibling is rewritten. |
| KanbanStore.DeleteCardLeavesGap | kanban_backend/boards/dynamodb.py:467-487 | After `delete_card`, the column's `get_cards` list is the old one without that card. When the orders were `0..n-1` and the card was not last, the remaining orders are no longer `0..n-2`. |
| KanbanStore.GetItem | kanban_backend/boards/dynamodb.py:41-46 | `get_item` raises exactly when the key's attributes differ from the table's key schema. Otherwise it returns the item stored under the id, and for a typed key only when the type matches. |
| KanbanStore.UpdateCardAsWrittenRaises | kanban_backend/boards/dynamodb.py:323-368 | `update_card` as written raises for every table and key schema. On the adapter's id-only table the typed key is refused. On an `id` + `type` table the SET clause names the key `id`. |
| KanbanStore.MoveColumnAsWrittenRaises | kanban_backend/boards/dynamodb.py:370-381 | On the adapter's id-only table, `move_column` as written raises at its first, typed read, before any write. An id-only read would find the column. |
| KanbanStore.DynamoDBAdapter.DeleteColumn | kanban_backend/boards/dynamodb.py:492-555 | Raises with no write for a missing or non-column item, a column without `board_id`, and a board with no other column. Otherwise the cards move to the first other column and then the column is deleted. |
| KanbanStore.DynamoDBAdapter.RelocateCards | kanban_backend/boards/dynamodb.py:522-541 | The `i`-th card in query order moves to the target with order `n + i`, where `n` is the target's card count before the loop. |
| KanbanStore.DynamoDBAdapter.MoveCard | kanban_backend/boards/dynamodb.py:572-634 | `None` with no write for a missing card. The card itself with no write when already in place. Otherwise the writes `MoveCardEffect` gives, returning the card as stored afterwards. |
| KanbanStore.DynamoDBAdapter.ReorderCardsInColumn | kanban_backend/boards/dynamodb.py:636-663 | Leaves the items `ReorderEffect` gives and keeps the enumeration. |
| KanbanStore.DynamoDBAdapter.FixCardOrders | kanban_backend/boards/dynamodb.py:665-705 | Lists the columns once and applies the per-column backfill to each in turn. Returns `True`. |
| KanbanStore.DynamoDBAdapter.BackfillColumn | kanban_backend/boards/dynamodb.py:693-700 | The batch loop over one column's creation-sorted cards leaves the items `Backfill` gives. |
| KanbanStore.DynamoDBAdapter.MoveColumn | kanban_backend/boards/dynamodb.py:370-460 | Raises with no write for a missing column or one without `board_id`. Otherwise returns `{id, type: column, order: new_order, board_id}` and leaves the rotation followed by the card renumbering. This is the intended `move_column`. |
| KanbanCards.FirstOther | kanban_backend/boards/dynamodb.py:513-515 | `None` exactly when every listed column is the deleted one. Otherwise another listed column. |
| KanbanCards.FirstOtherIsFirst | kanban_backend/boards/dynamodb.py:513 | The target is the first listed column other than the deleted one. |
| KanbanCards.RelocateStep | kanban_backend/boards/dynamodb.py:522-538 | Before its update, each card still has its old item and does not match the target query, so the target's count grows by one per card. |
| KanbanCards.DeleteColumnRelocates | kanban_backend/boards/dynamodb.py:517-552 | The `i`-th card takes the target column and order `n + i`, keeping its other attributes. The column is deleted and every other item is unchanged. |
| KanbanCards.DeleteColumnKeepsCards | kanban_backend/boards/dynamodb.py:517-552 | The set of cards is unchanged and the deleted column is left with none. The target ends with exactly its own cards plus the relocated ones. |
| KanbanCards.SourceListFacts | kanban_backend/boards/dynamodb.py:593-598 | The source list holds each other card of the source column exactly once, and not the moved card. |
| KanbanCards.DestListFacts | kanban_backend/boards/dynamodb.py:588-613 | The destination list is the sorted destination cards with the moved card inserted by `list.insert`, each exactly once. |
| KanbanCards.MoveCardKeepsCard | kanban_backend/boards/dynamodb.py:616-627 | The moved card is still a card. |
| KanbanCards.MoveCardAcross | kanban_backend/boards/dynamodb.py:587-627 | A cross-column move renumbers exactly two lists from 0: the source remainder in order-sorted sequence, and the destination list with the destination as `column_id`. Afterwards the two queries list exactly those, and nothing else changes. |
| KanbanCards.MoveCardDense | kanban_backend/boards/dynamodb.py:587-627 | After a cross-column move both columns are dense. The destination has one more card, and the moved card sits at its `list.insert` position. |
| KanbanCards.MoveCardSameColumn | kanban_backend/boards/dynamodb.py:587-627 | In a same-column move the list holds the card twice (one more entry than cards), and the card ends at its later index. |
| KanbanCards.SameColumnMoveLeavesGap | kanban_backend/boards/dynamodb.py:589-627 | Moving the first of three cards to position 2 gives the list `a b a c`, so `c` gets order 3 and no card has order 0. |
| KanbanCards.SameColumnListIsDense | kanban_backend/boards/dynamodb.py:598-613 | With the card removed before it is inserted, the list holds the column's cards once each, the card at its `list.insert` position, and every position below the card count. |
| KanbanRepair.ReorderListFacts | kanban_backend/boards/dynamodb.py:640-645 | The sorted list holds every card of the column exactly once. |
| KanbanRepair.ReorderValue | kanban_backend/boards/dynamodb.py:636-661 | The card at position `i` of the order-sorted list gets order `i` and the new `updated_at`. Nothing else of it changes, and no other item changes. |
| KanbanRepair.ReorderRanks | kanban_backend/boards/dynamodb.py:636-661 | Afterwards the column's cards are exactly the listed ones, each with its list position as order. |
| KanbanRepair.ReorderDense | kanban_backend/boards/dynamodb.py:636-661 | Afterwards the column's orders are a permutation of `0..n-1`, with the same number of cards. |
| KanbanRepair.ReorderedListStable | kanban_backend/boards/dynamodb.py:645 | Sorting again after the pass gives the same list. |
| KanbanRepair.ReorderIdempotent | kanban_backend/boards/dynamodb.py:636-661 | A second pass with the same timestamp leaves the state of the first. |
| KanbanRepair.Backfill | kanban_backend/boards/dynamodb.py:693-700 | The batch adds no key. |
| KanbanRepair.BackfillValue | kanban_backend/boards/dynamodb.py:693-700 | Each listed card without an order gets its list position and `updated_at`. Every other item is unchanged. |
| KanbanRepair.BackfillNothing | kanban_backend/boards/dynamodb.py:695 | A list whose cards all have an order causes no put. |
| KanbanRepair.FixAll | kanban_backend/boards/dynamodb.py:685-700 | The pass over all columns adds no key. |
| KanbanRepair.FixColumnValue | kanban_backend/boards/dynamodb.py:686-700 | For one column, each card without an order gets its rank by `created_at`. Every other item is unchanged. |
| KanbanRepair.FixColumnBackfills | kanban_backend/boards/dynamodb.py:686-700 | The pass over one column only fills missing orders, and leaves no card of the column without one. |
| KanbanRepair.FixAllBackfills | kanban_backend/boards/dynamodb.py:665-702 | The whole pass only fills missing orders, and leaves every listed column without a missing order. |
| KanbanRepair.FixAllNothing | kanban_backend/boards/dynamodb.py:665-702 | When no listed column has a card without an order, the pass writes nothing. |
| KanbanRepair.FixCardOrdersTwice | kanban_backend/boards/dynamodb.py:665-702 | A second run lists the same columns and writes nothing. |
| BoardsStore.StripKeys | boards/dynamodb.py:115 | On items of one type, stripping keeps ids distinct, and the keys can be rebuilt from the ids. |
| BoardsStore.SelectTyped | boards/dynamodb.py:108-113 | A scan over a typed table returns only keys of the scanned type. |
| BoardsStore.ColumnsByOrderFacts | boards/dynamodb.py:117-131 | The board's columns, sorted by order, list each column of the board exactly once and nothing else. |
| BoardsStore.BoardList | boards/dynamodb.py:107-115 | `get_boards` returns stored boards without `type`. |
| BoardsStore.ColumnList | boards/dynamodb.py:117-131 | `get_columns` returns the board's stored columns without `type`, in non-decreasing order (a missing order counts as 0). |
| BoardsStore.CardList | boards/dynamodb.py:133-144 | `get_cards` returns the column's stored cards without `type`, unsorted. |
| BoardsStore.BoardListComplete | boards/dynamodb.py:107-115 | Every board is listed exactly once. |
| BoardsStore.ColumnListComplete | boards/dynamodb.py:117-131 | Every column of the board is listed exactly once. |
| BoardsStore.CardListComplete | boards/dynamodb.py:133-144 | Every card of the column is listed exactly once. |
| BoardsStore.WithDefaultColumns | boards/dynamodb.py:67-74 | After `n` loop passes, the `i`-th default column is stored with its name and order. |
| BoardsStore.CreateBoardValid | boards/dynamodb.py:52-76 | The state after `create_board` is a valid typed enumeration. |
| BoardsStore.CreateBoardAddsBoard | boards/dynamodb.py:52-61 | No existing board is looked for: every call appends one more board to `get_boards`. |
| BoardsStore.CreateBoardDefaultColumns | boards/dynamodb.py:63-76 | A new board's id names no column, so it gets three columns, which `get_columns` lists with orders 0, 1, 2 and their names. |
| BoardsStore.BoardPutKeepsColumns | boards/dynamodb.py:61-64 | Putting the board changes no board's column list. |
| BoardsStore.CreatedColumnListed | boards/dynamodb.py:78-90 | The created column is listed for its board with exactly the order and name given. Nothing else changes. |
| BoardsStore.CreatedCardListed | boards/dynamodb.py:92-105 | The created card is listed for its column with exactly the order, title and description given. |
| BoardsStore.DeleteCardLeavesGap | boards/dynamodb.py:177-185 | Deleting a card removes it from its column's list. Every other entry stays, order included, so no gap is closed. |
| BoardsStore.UpdateCardKeepsPlace | boards/dynamodb.py:146-175 | The updated card keeps its place in its column's list with the given fields set. Every other entry is unchanged. |
| BoardsStore.UpdateBoardRenames | boards/dynamodb.py:248-266 | `get_boards` lists the same boards in the same order. The renamed one has the new name and `updated_at`, and the others are unchanged. |
| BoardsStore.MoveCardAppends | boards/dynamodb.py:321-340 | A card from another column joins the target list as one more entry, with the old card count as its order. |
| BoardsStore.MoveCardWithinColumn | boards/dynamodb.py:321-340 | A card moved within its own column keeps the list's length and gets the card count as its order, one past `0..n-1`. |
| BoardsStore.CardKeysOfColumn | boards/dynamodb.py:217 | The keys `get_cards` lists are exactly the stored cards of the column. |
| BoardsStore.DeleteColumnItems | boards/dynamodb.py:203-243 | Deleting a stored column removes it and its cards and keeps every other item. A missing column removes nothing. |
| BoardsStore.DeleteColumnCascade | boards/dynamodb.py:203-243 | After deleting a column, it is gone and `get_cards` for it is empty. Every other column's cards and the board list are unchanged. |
| BoardsStore.ClearColumns | boards/dynamodb.py:187-192 | Deleting columns one by one removes exactly those columns and their cards. |
| BoardsStore.ClearColumnsStep | boards/dynamodb.py:191-192 | One more column deleted is one more column cleared. |
| BoardsStore.DeleteBoardEmpties | boards/dynamodb.py:187-198 | After `delete_board` the board is gone, `get_columns` for it is empty and its former columns have no cards. |
| BoardsStore.DeleteBoardSpares | boards/dynamodb.py:187-198 | Every other board's column list, and every card list of a column not deleted, is unchanged. |
| BoardsStore.StripUpdates | boards/dynamodb.py:387-410 | Building `updates` over the stripped list, comparing ids, gives the same list as building it over the stored items, comparing keys. |
| BoardsStore.StripPuts | boards/dynamodb.py:413-423 | The puts built from the stripped list are the puts over the stored items. |
| BoardsStore.RotationPuts | boards/dynamodb.py:383-423 | The puts `move_column` builds are the rotation's puts over the board's sorted columns, and each names a stored column. |
| BoardsStore.MovedPosition | boards/dynamodb.py:383-390 | The moved column is in its board's sorted column list, with its stored item. |
| BoardsStore.ColumnsRotatedFacts | boards/dynamodb.py:383-423 | The rotation rewrites only the board's columns. Each keeps its type, board and name and takes the order `Rotate` gives it. No key is added and items stay typed. |
| BoardsStore.MoveColumnRotates | boards/dynamodb.py:364-423 | The board lists the same columns, each with its rotated order and its name. Nothing but those columns and the moved column's cards changes. |
| BoardsStore.RotationSparesCards | boards/dynamodb.py:413-423 | The rotation touches no card, so every card list is unchanged. |
| BoardsStore.MoveColumnRenumbersCards | boards/dynamodb.py:426-451 | The moved column's cards keep their place in `get_cards`, their column and their other attributes, and take orders `0..k-1`. Other columns' cards are unchanged. |
| BoardsStore.MoveColumnKeepsPermutation | boards/dynamodb.py:383-423 | Orders of the board's columns that are a permutation of `0..n-1` stay one after a move to `0 <= target < n`. |
| BoardsStore.DeleteColumnAsWrittenKeepsCards | boards/dynamodb.py:203-246 | As written, deleting a column with cards raises `NameError` and leaves the cards listed. The corrected deletion leaves none. |
| BoardsStore.DeleteBoardAsWrittenKeepsBoard | boards/dynamodb.py:187-201 | As written, deleting a board that has a column raises `NameError` and deletes nothing. The corrected deletion removes the board and its columns. |
| BoardsStore.MoveColumnAsWrittenSkipsCards | boards/dynamodb.py:364-468 | As written, `move_column` returns `None` and leaves the cards as they were. It differs from the intended effect whenever a card's order is not its position. |
| BoardsStore.JoinStartsWithFirst | boards/dynamodb.py:285 | `', '.join(parts)` starts with its first part. |
| BoardsStore.UpdateColumnKeywordDoubled | boards/dynamodb.py:268-285 | Whatever the arguments, the expression as written starts with `SET SET `. The intended one starts with `SET #name`. |
| BoardsStore.UpdateColumnAsWrittenChangesNothing | boards/dynamodb.py:268-293 | As written, `update_column` returns `None` and writes nothing. As intended, the column is renamed, keeps its board and stays in the board's list. |
| BoardsStore.DynamoDBAdapter.CreateColumn | boards/dynamodb.py:78-90 | One put of the column with the order as given. No sibling is written. |
| BoardsStore.DynamoDBAdapter.CreateCard | boards/dynamodb.py:92-105 | One put of the card with the order as given. No sibling is written. |
| BoardsStore.DynamoDBAdapter.CreateBoard | boards/dynamodb.py:52-76 | Puts the board, then the default columns when `get_columns` finds none for it. Returns the new id. |
| BoardsStore.DynamoDBAdapter.CreateDefaultColumns | boards/dynamodb.py:67-74 | The loop writes the three default columns in order and appends their keys. |
| BoardsStore.DynamoDBAdapter.UpdateCard | boards/dynamodb.py:146-175 | With no field given, `None` and no write. Otherwise an upsert of the given fields and `updated_at`, returning the whole new item. |
| BoardsStore.DynamoDBAdapter.DeleteCard | boards/dynamodb.py:177-185 | Removes the card's key (a missing key is no error) and returns `True`. |
| BoardsStore.DynamoDBAdapter.UpdateBoard | boards/dynamodb.py:248-266 | Upsert of `name` and `updated_at`, returning the whole new item. |
| BoardsStore.DynamoDBAdapter.MoveCard | boards/dynamodb.py:295-362 | `None` with no write when the card or target column is missing. Otherwise the card takes the target column and the target's previous card count as order. |
| BoardsStore.DynamoDBAdapter.DeleteColumn | boards/dynamodb.py:203-246 | As intended: returns `True` exactly when the column existed, and leaves `DeleteColumnItems`. |
| BoardsStore.DynamoDBAdapter.DeleteBoard | boards/dynamodb.py:187-201 | As intended: deletes each listed column with its cards, then the board, and returns `True`. |
| BoardsStore.DynamoDBAdapter.DeleteColumns | boards/dynamodb.py:191-192 | The loop over the listed columns: each one goes with its cards, leaving `ClearColumns` of the old items, and the enumeration keeps its order minus the deleted keys. |
| BoardsStore.DynamoDBAdapter.MoveColumn | boards/dynamodb.py:364-453 | As intended: `None` with no write for a missing column or one without `board_id`. Otherwise rotates the sorted columns, renumbers the moved column's cards in query order, and returns `{type: column, order, board_id}`. |
| BoardsStore.DynamoDBAdapter.UpdateColumn | boards/dynamodb.py:268-293 | As intended: upsert of the name, the order when given, and `updated_at`, returning the whole new item. |

## Left out

- Table and index creation and the waiters (`__init__` of both adapters) are infrastructure I/O. The model starts from an existing, valid table.
- Several things are taken as a single write: the three put retries of the kanban `create_board`, with their `time.sleep`; `ReturnConsumedCapacity`; and the grouping of `batch_writer`.
- Expression strings are modelled as their effect on the item, except where the string is the defect (`update_column`).
- KanbanStore.DynamoDBAdapter.UpdateCard: models the evidently intended behaviour. As written every call raises: the typed key is refused by the id-only table, and the SET clause names the key `id`. The as-written behaviour is `KanbanStore.UpdateCardAsWritten` (see "## Findings").
- KanbanStore.DynamoDBAdapter.MoveColumn: models the evidently intended behaviour. As written every call raises at the typed `get_item` (lines 373-378), as do the typed card updates at 438-441. The as-written first step is `KanbanStore.MoveColumnLookup` (see "## Findings").
- `uuid.uuid4()` and `datetime.now()`/`utcnow()` are parameters. One `now` serves a whole call, even where the code reads the clock once per write.
- Logging and `print` are not modelled, except that `logger` is undefined in `boards/dynamodb.py`, where it decides the control flow (see "## Findings").
- Exceptions raised by the store itself (`ClientError`, throttling, rejected requests) are not modelled, except where the code's own control flow depends on them.
- The GraphQL schema, URLs, the React frontend, the backup and restore scripts, and the Django models and admin are outside this model.
- Concurrent callers are left out: operations run one at a time.
- Orders are unbounded integers, and a missing order is `None`. DynamoDB's `NULL` attribute and a missing attribute are both `None`.
- KanbanStore.DynamoDBAdapter.MoveCard: a card without `column_id` makes the source query fail, which the method's handler turns into `None`. The model returns `None` with no write, without modelling the query's rejection.
- KanbanStore.DynamoDBAdapter.GetBoards: it is a `Select` over the enumeration. Its own contract states only soundness (every returned item is stored and matches), and completeness is `Tables.SelectComplete`.
- KanbanStore.DynamoDBAdapter.GetColumns: it is a `Select` over the enumeration. Its own contract states only soundness (every returned item is stored and matches), and completeness is `Tables.SelectComplete`.
- KanbanStore.DynamoDBAdapter.GetCards: it is a `Select` over the enumeration. Its own contract states only soundness (every returned item is stored and matches), and completeness is `Tables.SelectComplete`.
- Tables.Select: every `scan` and `query` reads a single page. The code never follows `LastEvaluatedKey` (`boards/dynamodb.py:108-113`, `118-126`, `134-142`; the kanban `get_boards`, `get_columns` and `get_cards`, e.g. `kanban_backend/boards/dynamodb.py:222-238`). The model returns every match, as if the table always fits in one 1 MB page.
- Records.OrderKey: `x.get('order', 0)` gives `0` only when `order` is absent. A stored `NULL` gives `None`, and `list.sort` then raises `TypeError` when comparing it with a number (`boards/dynamodb.py:130`; `kanban_backend/boards/dynamodb.py:589`, `595`, `645`). The model does not tell the two apart and sorts a `NULL` order as `0`.
- Rotation.FirstName: `col['name']` raises `KeyError` for a column without `name`, after the puts already buffered for earlier updates (`boards/dynamodb.py:422`, `kanban_backend/boards/dynamodb.py:428`). The model returns `None` and writes the put without a name.
- KanbanStore.DynamoDBAdapter.GetCard: a failing `get_item` (swallowed by the handler into `None`) is not modelled.
- BoardsStore.DynamoDBAdapter.UpdateCard: `**kwargs` is limited to `title`, `description` and `order`. Other keyword names would add attributes the model's `Record` does not have.
- BoardsStore.DynamoDBAdapter.DeleteColumn: models the evidently intended behaviour. The behaviour as written is `BoardsStore.DeleteColumnAsWritten` (see "## Findings").
- BoardsStore.DynamoDBAdapter.DeleteBoard: models the evidently intended behaviour. The behaviour as written is `BoardsStore.DeleteBoardAsWritten` (see "## Findings").
- BoardsStore.DynamoDBAdapter.MoveColumn: models the evidently intended behaviour. The behaviour as written is `BoardsStore.MoveColumnAsWritten` (see "## Findings").
- BoardsStore.DynamoDBAdapter.UpdateColumn: models the evidently intended behaviour. The behaviour as written is `BoardsStore.UpdateColumnAsWritten` (see "## Findings").
- The `move_column` puts of both adapters rewrite whole items. `created_at` is dropped from the rewritten columns, and the model's `RewrittenColumn` drops it too.
- Neither `move_column` clamps `new_order`, and neither `delete_card` closes the gap it leaves. The model follows the code, and the permutation results require `0 <= new_order < n`.

## Findings

| source | as written | input that shows it | evidently intended | confidence | as-written member | corrected member |
|---|---|---|---|---|---|---|
| kanban_backend/boards/dynamodb.py:589-627 | A same-column `move_card` inserts the card into `dest_cards`, which still holds it. The card appears twice, and the cards after its first place are numbered one too high. | A column with cards `a b c` (orders 0, 1, 2); move `a` to position 2. The list is `a b a c`, leaving `a`=2, `b`=1, `c`=3 and no card with order 0. | Remove the card from `dest_cards` before inserting it, so the column is renumbered `0..n-1`. | not executed | KanbanCards.SameColumnMoveLeavesGap | KanbanCards.SameColumnListIsDense |
| boards/dynamodb.py:218 | `delete_column` calls `logger.info`, and `logger` is never defined (imports at lines 1-7). The `NameError` is caught at 244, and the handler's own `logger.error` (245) raises again. No delete is issued. | Any stored column with a card. The call raises `NameError` and `get_cards` still lists the card (the tests at boards/tests/test_models.py:37-41 expect none). | Delete the column's cards and then the column, and return `True`. | not executed | BoardsStore.DeleteColumnAsWrittenKeepsCards | BoardsStore.DeleteColumnCascade |
| boards/dynamodb.py:191-192 | `delete_board` calls `delete_column`, whose `NameError` is not the `ClientError` it catches. The error propagates, and the board is never deleted. | A board with one column. The call raises, and the board and column stay (boards/tests/test_models.py:43-49 expects them gone). | Delete every column with its cards, then the board. | not executed | BoardsStore.DeleteBoardAsWrittenKeepsBoard | BoardsStore.DeleteBoardEmpties |
| boards/dynamodb.py:427 | `move_column` writes the rotation puts, then `logger.info` raises `NameError`. The handler at 462 returns `None`, so the cards are never renumbered and the caller sees failure. | A movable column whose only card has order 5. The result is `None`, the columns are rotated, and the card keeps order 5. | Renumber the moved column's cards `0..k-1` and return the moved column. | not executed | BoardsStore.MoveColumnAsWrittenSkipsCards | BoardsStore.MoveColumnRenumbersCards |
| boards/dynamodb.py:269 | `update_column` seeds its clause list with `'SET #name = :name'` and then prefixes `'SET '` again (285). The expression starts with `SET SET`, which the update grammar rejects. The `ClientError` is caught, and `None` is returned. | Any call, e.g. `update_column(c, "Doing")`: the expression is `SET SET #name = :name, #updated_at = :updated_at`. | One `SET` keyword: set the name, the order when given, and `updated_at`. | not executed | BoardsStore.UpdateColumnKeywordDoubled | BoardsStore.UpdateColumnAsWrittenChangesNothing |
| kanban_backend/boards/dynamodb.py:323-368 | `update_card` reads the card with `Key={'id', 'type'}`, but the table the adapter creates has the single key `id` (41-46), so DynamoDB refuses the key. On a table keyed by both, the loop at 345-348 copies `id` into the SET clause, and DynamoDB refuses to update a key attribute. The handler at 366-368 re-raises either way. | Any stored card, e.g. `update_card(c, "New title")`: the call raises and the card keeps its title. | Read and update with `Key={'id': card_id}` and leave the key attributes out of the SET clause. | not executed | KanbanStore.UpdateCardAsWrittenRaises | KanbanStore.DynamoDBAdapter.UpdateCard |
| kanban_backend/boards/dynamodb.py:373-378 | `move_column` reads the column with `Key={'id', 'type'}` on the id-only table (41-46). The read is refused, the handler at 458-460 re-raises, and nothing is written. The card updates at 438-441 use the same typed key. | Any stored column, e.g. `move_column(c, 0)`: the call raises and no order changes. | Use `Key={'id': ...}` as the other methods do, then rotate the columns and renumber the cards. | not executed | KanbanStore.MoveColumnAsWrittenRaises | KanbanStore.DynamoDBAdapter.MoveColumn |
