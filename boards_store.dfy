/** The adapter the unit tests use (`boards/dynamodb.py`): items keyed by id and
    type together, getters that strip the type, creation that stores orders as
    given, a `move_card` that appends, the column rotation shared with the API
    adapter, and deletes that cascade from a board to its columns and cards. */
module BoardsStore {
  import opened Records
  import opened Sequences
  import opened Sorting
  import opened Ordering
  import opened Tables
  import opened Rotation

  /** The table key: the `id` (hash key) and the `type` (range key). */
  datatype Key = Key(id: string, kind: Kind)

  /** Every item carries the type its key names: each write goes through a key
      whose `type` is the item's own. */
  ghost predicate Typed(m: map<Key, Record>) {
    forall k :: k in m ==> m[k].kind == Some(k.kind)
  }

  /** The keys of a list of ids, all of one type. */
  function WithKind(ids: seq<string>, kind: Kind): (r: seq<Key>)
    ensures |r| == |ids| && forall i :: 0 <= i < |ids| ==> r[i] == Key(ids[i], kind)
  {
    seq(|ids|, i requires 0 <= i < |ids| => Key(ids[i], kind))
  }

  /** One more id adds its key at the end. */
  lemma WithKindSnoc(ids: seq<string>, i: nat, kind: Kind)
    requires i < |ids|
    ensures WithKind(ids[..i + 1], kind) == WithKind(ids[..i], kind) + [Key(ids[i], kind)]
  {
    var a := WithKind(ids[..i + 1], kind);
    var b := WithKind(ids[..i], kind) + [Key(ids[i], kind)];
    assert |a| == |b|;
    forall j | 0 <= j < |a| ensures a[j] == b[j] {
    }
  }

  /** `[{k: v for k, v in item.items() if k != 'type'} for item in items]`. */
  function Strip(s: seq<Item<Key>>): (r: seq<Item<string>>)
    ensures |r| == |s|
    ensures forall i :: 0 <= i < |s| ==> r[i] == Item(s[i].key.id, s[i].rec.(kind := None))
  {
    seq(|s|, i requires 0 <= i < |s| => Item(s[i].key.id, s[i].rec.(kind := None)))
  }

  /** On a list of items of one type, stripping keeps the ids apart and loses
      nothing: the keys come back from the ids. */
  lemma StripKeys(s: seq<Item<Key>>, kind: Kind)
    requires forall i :: 0 <= i < |s| ==> s[i].key.kind == kind
    ensures WithKind(Keys(Strip(s)), kind) == Keys(s)
    ensures NoDup(Keys(s)) ==> NoDup(Keys(Strip(s)))
    ensures forall id :: id in Keys(Strip(s)) <==> Key(id, kind) in Keys(s)
  {
    var ids := Keys(Strip(s));
    forall i, j | 0 <= i < j < |s| && NoDup(Keys(s)) ensures ids[i] != ids[j] {
      assert Keys(s)[i] != Keys(s)[j];
    }
    forall id | Key(id, kind) in Keys(s) ensures id in ids {
      var i :| 0 <= i < |s| && Keys(s)[i] == Key(id, kind);
      assert ids[i] == id;
    }
  }

  lemma StripSnoc(s: seq<Item<Key>>, x: Item<Key>)
    ensures Keys(Strip(s + [x])) == Keys(Strip(s)) + [x.key.id]
  {
    assert Strip(s + [x]) == Strip(s) + [Item(x.key.id, x.rec.(kind := None))];
    KeysAppend(Strip(s), [Item(x.key.id, x.rec.(kind := None))]);
  }

  /** A query over a typed table returns only items whose key has the queried type. */
  lemma SelectTyped(m: map<Key, Record>, ks: seq<Key>, s: Selector, kind: Kind)
    requires Typed(m)
    requires forall r :: Matches(r, s) ==> r.kind == Some(kind)
    ensures forall i :: 0 <= i < |Select(m, ks, s)| ==> Select(m, ks, s)[i].key == Key(Select(m, ks, s)[i].key.id, kind)
  {
  }

  /** The board's columns in the order `get_columns` sorts them, still typed. */
  function ColumnsByOrder(m: map<Key, Record>, ks: seq<Key>, boardId: string): seq<Item<Key>> {
    Sort(ByOrder, Select(m, ks, ColumnsOf(boardId)))
  }

  /** The sorted column list is sorted by `order` (a missing order counting as 0),
      lists each column of the board exactly once, and lists nothing else. */
  lemma ColumnsByOrderFacts(m: map<Key, Record>, ks: seq<Key>, boardId: string)
    requires Enumerates(m, ks) && Typed(m)
    ensures var cols := ColumnsByOrder(m, ks, boardId);
            && Sorted(ByOrder, cols)
            && NoDup(Keys(cols))
            && (forall i :: 0 <= i < |cols| ==>
                  && cols[i].key == Key(cols[i].key.id, Column) && cols[i].key in m
                  && cols[i].rec == m[cols[i].key] && Matches(cols[i].rec, ColumnsOf(boardId)))
            && (forall k :: k in m && Matches(m[k], ColumnsOf(boardId)) ==> k in Keys(cols))
  {
    var q := Select(m, ks, ColumnsOf(boardId));
    var cols := ColumnsByOrder(m, ks, boardId);
    SortSorted(ByOrder, q);
    SelectComplete(m, ks, ColumnsOf(boardId));
    SortKeysDistinct(ByOrder, q);
    forall i | 0 <= i < |cols|
      ensures cols[i].key == Key(cols[i].key.id, Column) && cols[i].key in m
      ensures cols[i].rec == m[cols[i].key] && Matches(cols[i].rec, ColumnsOf(boardId))
    {
      SortMembers(ByOrder, q, i);
      var j :| 0 <= j < |q| && q[j] == cols[i];
    }
    forall k | k in m && Matches(m[k], ColumnsOf(boardId)) ensures k in Keys(cols) {
      SortKeyMembers(ByOrder, q, k);
    }
  }

  /** `get_boards`: every board, without its type, in scan order. */
  function BoardList(m: map<Key, Record>, ks: seq<Key>): (r: seq<Item<string>>)
    requires Typed(m)
    ensures forall i :: 0 <= i < |r| ==> Key(r[i].key, Board) in m && r[i].rec == m[Key(r[i].key, Board)].(kind := None)
  {
    SelectTyped(m, ks, OfKind(Board), Board);
    Strip(Select(m, ks, OfKind(Board)))
  }

  /** `get_columns`: the board's columns without their type, sorted by `order`
      with a missing order counting as 0. */
  function ColumnList(m: map<Key, Record>, ks: seq<Key>, boardId: string): (r: seq<Item<string>>)
    requires Enumerates(m, ks) && Typed(m)
    ensures forall i :: 0 <= i < |r| ==>
              && Key(r[i].key, Column) in m && r[i].rec == m[Key(r[i].key, Column)].(kind := None)
              && r[i].rec.boardId == Some(boardId)
    ensures forall i, j :: 0 <= i < j < |r| ==> OrderKey(r[i].rec) <= OrderKey(r[j].rec)
  {
    ColumnsByOrderFacts(m, ks, boardId);
    Strip(ColumnsByOrder(m, ks, boardId))
  }

  /** `get_cards`: the column's cards without their type, in scan order (unsorted). */
  function CardList(m: map<Key, Record>, ks: seq<Key>, columnId: string): (r: seq<Item<string>>)
    requires Typed(m)
    ensures forall i :: 0 <= i < |r| ==>
              && Key(r[i].key, Card) in m && r[i].rec == m[Key(r[i].key, Card)].(kind := None)
              && r[i].rec.columnId == Some(columnId)
  {
    SelectTyped(m, ks, CardsOf(columnId), Card);
    Strip(Select(m, ks, CardsOf(columnId)))
  }

  /** `get_boards` lists every board once. */
  lemma BoardListComplete(m: map<Key, Record>, ks: seq<Key>)
    requires Enumerates(m, ks) && Typed(m)
    ensures forall id :: Key(id, Board) in m ==> id in Keys(BoardList(m, ks))
    ensures NoDup(Keys(BoardList(m, ks)))
  {
    SelectComplete(m, ks, OfKind(Board));
    StripKeys(Select(m, ks, OfKind(Board)), Board);
  }

  /** `get_columns` lists every column of the board once. */
  lemma ColumnListComplete(m: map<Key, Record>, ks: seq<Key>, boardId: string)
    requires Enumerates(m, ks) && Typed(m)
    ensures forall id :: Key(id, Column) in m && m[Key(id, Column)].boardId == Some(boardId) ==> id in Keys(ColumnList(m, ks, boardId))
    ensures NoDup(Keys(ColumnList(m, ks, boardId)))
  {
    ColumnsByOrderFacts(m, ks, boardId);
    StripKeys(ColumnsByOrder(m, ks, boardId), Column);
  }

  /** `get_cards` lists every card of the column once. */
  lemma CardListComplete(m: map<Key, Record>, ks: seq<Key>, columnId: string)
    requires Enumerates(m, ks) && Typed(m)
    ensures forall id :: Key(id, Card) in m && m[Key(id, Card)].columnId == Some(columnId) ==> id in Keys(CardList(m, ks, columnId))
    ensures NoDup(Keys(CardList(m, ks, columnId)))
    ensures WithKind(Keys(CardList(m, ks, columnId)), Card) == Keys(Select(m, ks, CardsOf(columnId)))
  {
    SelectComplete(m, ks, CardsOf(columnId));
    StripKeys(Select(m, ks, CardsOf(columnId)), Card);
  }

  /** A query finds nothing when no enumerated item matches it. */
  lemma SelectNothing(m: map<Key, Record>, ks: seq<Key>, s: Selector)
    requires forall k :: k in ks && k in m ==> !Matches(m[k], s)
    ensures Select(m, ks, s) == []
  {
  }

  /** The records after the first `n` default columns of a new board are written. */
  function WithDefaultColumns(m: map<Key, Record>, boardId: string, columnIds: seq<string>, n: nat, now: string): (r: map<Key, Record>)
    requires n <= |columnIds| && n <= |DefaultColumns|
    ensures forall k :: k in r <==> k in m || k in WithKind(columnIds[..n], Column)
    ensures forall k :: k in m && k !in WithKind(columnIds[..n], Column) ==> r[k] == m[k]
    ensures forall i :: 0 <= i < n ==> Key(columnIds[i], Column) in r
    ensures NoDup(columnIds) ==>
              forall i :: 0 <= i < n ==> r[Key(columnIds[i], Column)] == ColumnRecord(boardId, DefaultColumns[i].0, Some(DefaultColumns[i].1), now)
  {
    if n == 0 then m
    else
      var r0 := WithDefaultColumns(m, boardId, columnIds, n - 1, now);
      WithKindSnoc(columnIds, n - 1, Column);
      r0[Key(columnIds[n - 1], Column) := ColumnRecord(boardId, DefaultColumns[n - 1].0, Some(DefaultColumns[n - 1].1), now)]
  }

  /** The next default column's key is not yet stored. */
  lemma DefaultColumnFresh(m: map<Key, Record>, boardId: string, columnIds: seq<string>, i: nat, now: string)
    requires i < |columnIds| && i < |DefaultColumns| && NoDup(columnIds)
    requires forall j :: 0 <= j < |columnIds| ==> Key(columnIds[j], Column) !in m
    ensures Key(columnIds[i], Column) !in WithDefaultColumns(m, boardId, columnIds, i, now)
  {
    forall j | 0 <= j < i ensures WithKind(columnIds[..i], Column)[j] != Key(columnIds[i], Column) {
      assert columnIds[j] != columnIds[i];
    }
  }

  /** The enumeration after one more default column is appended. */
  lemma DefaultColumnKeys(ks0: seq<Key>, ks: seq<Key>, columnIds: seq<string>, i: nat)
    requires i < |columnIds| && ks == ks0 + WithKind(columnIds[..i], Column)
    ensures ks + [Key(columnIds[i], Column)] == ks0 + WithKind(columnIds[..i + 1], Column)
  {
    WithKindSnoc(columnIds, i, Column);
  }

  /** The records after one more default column is written. */
  lemma DefaultColumnWritten(m: map<Key, Record>, boardId: string, columnIds: seq<string>, i: nat, now: string)
    requires i < |columnIds| && i < |DefaultColumns|
    ensures WithDefaultColumns(m, boardId, columnIds, i, now)[Key(columnIds[i], Column) := ColumnRecord(boardId, DefaultColumns[i].0, Some(DefaultColumns[i].1), now)]
            == WithDefaultColumns(m, boardId, columnIds, i + 1, now)
  {
  }

  /** All three default columns: the prefix of length three is the whole list. */
  lemma AllDefaultColumns(columnIds: seq<string>)
    requires |columnIds| == 3
    ensures columnIds[..3] == columnIds
  {
  }

  /** How many default columns `create_board` writes: all three when `get_columns`
      finds no column for the new board's id, none otherwise. */
  function DefaultCount(m: map<Key, Record>, ks: seq<Key>, boardId: string): (n: nat)
    requires Enumerates(m, ks) && Typed(m)
    ensures n <= |DefaultColumns|
  {
    if ColumnList(m, ks, boardId) == [] then |DefaultColumns| else 0
  }

  /** The records after `create_board` wrote the board and `n` default columns. */
  function NewBoardItems(m: map<Key, Record>, boardId: string, name: string, columnIds: seq<string>, n: nat, now: string): map<Key, Record>
    requires n <= |columnIds| && n <= |DefaultColumns|
  {
    WithDefaultColumns(m[Key(boardId, Board) := BoardRecord(Board, name, now)], boardId, columnIds, n, now)
  }

  /** The enumeration after `create_board`: the board's key, then its columns' keys. */
  function NewBoardKeys(ks: seq<Key>, boardId: string, columnIds: seq<string>, n: nat): seq<Key>
    requires n <= |columnIds|
  {
    ks + [Key(boardId, Board)] + WithKind(columnIds[..n], Column)
  }

  /** Writing the default columns keeps every record's type that of its key. */
  lemma DefaultColumnsTyped(m: map<Key, Record>, boardId: string, columnIds: seq<string>, n: nat, now: string)
    requires Typed(m) && NoDup(columnIds) && n <= |columnIds| && n <= |DefaultColumns|
    ensures Typed(WithDefaultColumns(m, boardId, columnIds, n, now))
  {
    var r := WithDefaultColumns(m, boardId, columnIds, n, now);
    var cks := WithKind(columnIds[..n], Column);
    forall k | k in r ensures r[k].kind == Some(k.kind) {
      if k in cks {
        var i :| 0 <= i < |cks| && cks[i] == k;
      }
    }
  }

  /** Distinct ids give distinct keys. */
  lemma WithKindDistinct(ids: seq<string>, n: nat, kind: Kind)
    requires NoDup(ids) && n <= |ids|
    ensures NoDup(WithKind(ids[..n], kind))
  {
    var cks := WithKind(ids[..n], kind);
    forall i, j | 0 <= i < j < |cks| ensures cks[i] != cks[j] {
      assert ids[i] != ids[j];
    }
  }

  /** The state after `create_board` is a valid typed enumeration. */
  lemma CreateBoardValid(m: map<Key, Record>, ks: seq<Key>, boardId: string, name: string, columnIds: seq<string>, n: nat, now: string)
    requires Enumerates(m, ks) && Typed(m) && |columnIds| == 3 && NoDup(columnIds) && n <= 3
    requires Key(boardId, Board) !in m && forall i :: 0 <= i < 3 ==> Key(columnIds[i], Column) !in m
    ensures Enumerates(NewBoardItems(m, boardId, name, columnIds, n, now), NewBoardKeys(ks, boardId, columnIds, n))
    ensures Typed(NewBoardItems(m, boardId, name, columnIds, n, now))
  {
    var bk := Key(boardId, Board);
    var mb := m[bk := BoardRecord(Board, name, now)];
    var m1 := NewBoardItems(m, boardId, name, columnIds, n, now);
    var ks1 := NewBoardKeys(ks, boardId, columnIds, n);
    var cks := WithKind(columnIds[..n], Column);
    assert forall k :: k in m1 <==> k in mb || k in cks;
    assert bk !in ks;
    NoDupConcat(ks, [bk]);
    WithKindDistinct(columnIds, n, Column);
    forall k | k in cks ensures k !in ks + [bk] {
      var i :| 0 <= i < |cks| && cks[i] == k;
    }
    NoDupConcat(ks + [bk], cks);
    DefaultColumnsTyped(mb, boardId, columnIds, n, now);
  }

  /** A query after `create_board` returns what it returned before, then the
      board if it matches, then the new columns that match. */
  lemma CreateBoardSelect(m: map<Key, Record>, ks: seq<Key>, boardId: string, name: string, columnIds: seq<string>, n: nat,
                          now: string, s: Selector)
    requires Enumerates(m, ks) && |columnIds| == 3 && n <= 3
    requires Key(boardId, Board) !in m && forall i :: 0 <= i < 3 ==> Key(columnIds[i], Column) !in m
    ensures var b := BoardRecord(Board, name, now);
            var m1 := NewBoardItems(m, boardId, name, columnIds, n, now);
            Select(m1, NewBoardKeys(ks, boardId, columnIds, n), s)
              == Select(m, ks, s) + (if Matches(b, s) then [Item(Key(boardId, Board), b)] else []) + Select(m1, WithKind(columnIds[..n], Column), s)
  {
    var bk := Key(boardId, Board);
    var b := BoardRecord(Board, name, now);
    var mb := m[bk := b];
    var m1 := NewBoardItems(m, boardId, name, columnIds, n, now);
    var cks := WithKind(columnIds[..n], Column);
    forall k | k in cks ensures k !in ks + [bk] {
      var i :| 0 <= i < |cks| && cks[i] == k;
    }
    SelectConcat(m1, ks + [bk], cks, s);
    SelectUnchanged(mb, m1, ks + [bk], s);
    SelectPutNew(m, ks, bk, b, s);
  }

  /** `create_board` never looks for an existing board: every call adds one more
      board to `get_boards`, at the end, whether or not it also writes the default
      columns. */
  lemma CreateBoardAddsBoard(m: map<Key, Record>, ks: seq<Key>, boardId: string, name: string, columnIds: seq<string>,
                             n: nat, now: string)
    requires Enumerates(m, ks) && Typed(m) && |columnIds| == 3 && NoDup(columnIds) && n <= 3
    requires Key(boardId, Board) !in m && forall i :: 0 <= i < 3 ==> Key(columnIds[i], Column) !in m
    ensures var m1 := NewBoardItems(m, boardId, name, columnIds, n, now);
            && Typed(m1)
            && Keys(BoardList(m1, NewBoardKeys(ks, boardId, columnIds, n))) == Keys(BoardList(m, ks)) + [boardId]
  {
    var m1 := NewBoardItems(m, boardId, name, columnIds, n, now);
    var ks1 := NewBoardKeys(ks, boardId, columnIds, n);
    var bk := Key(boardId, Board);
    var q := Select(m, ks, OfKind(Board));
    CreateBoardValid(m, ks, boardId, name, columnIds, n, now);
    CreateBoardSelect(m, ks, boardId, name, columnIds, n, now, OfKind(Board));
    SelectNothing(m1, WithKind(columnIds[..n], Column), OfKind(Board));
    assert Select(m1, ks1, OfKind(Board)) == q + [Item(bk, BoardRecord(Board, name, now))];
    StripSnoc(q, Item(bk, BoardRecord(Board, name, now)));
  }

  /** The three default columns of a new board, as a query returns them. */
  function DefaultColumnItems(boardId: string, columnIds: seq<string>, now: string): (c: seq<Item<Key>>)
    requires |columnIds| == 3
    ensures |c| == 3
    ensures forall i :: 0 <= i < 3 ==> c[i].rec.order == Some(i)
  {
    assert forall i :: 0 <= i < 3 ==> DefaultColumns[i].1 == i;
    seq(3, i requires 0 <= i < 3 => Item(Key(columnIds[i], Column), ColumnRecord(boardId, DefaultColumns[i].0, Some(DefaultColumns[i].1), now)))
  }

  lemma DefaultColumnsSorted(boardId: string, columnIds: seq<string>, now: string)
    requires |columnIds| == 3
    ensures Sorted(ByOrder, DefaultColumnItems(boardId, columnIds, now))
  {
    var c := DefaultColumnItems(boardId, columnIds, now);
    forall i, j | 0 <= i < j < 3 ensures !Before(ByOrder, c[j].rec, c[i].rec) {
      assert OrderKey(c[i].rec) == i && OrderKey(c[j].rec) == j;
    }
  }

  /** The board's column query over the three new keys finds the three default
      columns, in order. */
  lemma DefaultColumnsSelect(m: map<Key, Record>, boardId: string, name: string, columnIds: seq<string>, now: string)
    requires |columnIds| == 3 && NoDup(columnIds)
    ensures Select(NewBoardItems(m, boardId, name, columnIds, 3, now), WithKind(columnIds[..3], Column), ColumnsOf(boardId))
              == DefaultColumnItems(boardId, columnIds, now)
  {
    var m1 := NewBoardItems(m, boardId, name, columnIds, 3, now);
    assert columnIds[..3] == columnIds;
    var cks := WithKind(columnIds, Column);
    var c := DefaultColumnItems(boardId, columnIds, now);
    var s := ColumnsOf(boardId);
    assert cks[1..][1..][1..] == [];
    assert Select(m1, cks[1..][1..], s) == [c[2]];
    assert Select(m1, cks[1..], s) == [c[1], c[2]];
  }

  /** The board's column list after the default columns are written. */
  lemma CreateBoardColumnList(m: map<Key, Record>, ks: seq<Key>, boardId: string, name: string, columnIds: seq<string>, now: string)
    requires Enumerates(m, ks) && Typed(m) && |columnIds| == 3 && NoDup(columnIds)
    requires Key(boardId, Board) !in m && forall i :: 0 <= i < 3 ==> Key(columnIds[i], Column) !in m
    requires Select(m, ks, ColumnsOf(boardId)) == []
    ensures var m1 := NewBoardItems(m, boardId, name, columnIds, 3, now);
            var ks1 := NewBoardKeys(ks, boardId, columnIds, 3);
            && Enumerates(m1, ks1) && Typed(m1)
            && ColumnList(m1, ks1, boardId) == Strip(DefaultColumnItems(boardId, columnIds, now))
  {
    var m1 := NewBoardItems(m, boardId, name, columnIds, 3, now);
    var ks1 := NewBoardKeys(ks, boardId, columnIds, 3);
    var s := ColumnsOf(boardId);
    CreateBoardValid(m, ks, boardId, name, columnIds, 3, now);
    CreateBoardSelect(m, ks, boardId, name, columnIds, 3, now, s);
    DefaultColumnsSelect(m, boardId, name, columnIds, now);
    var c := DefaultColumnItems(boardId, columnIds, now);
    assert Select(m1, ks1, s) == c;
    DefaultColumnsSorted(boardId, columnIds, now);
    SortOfSorted(ByOrder, c);
  }

  /** When the new board's id names no column yet, it gets the three default
      columns, which `get_columns` lists in their orders 0, 1, 2. */
  lemma CreateBoardDefaultColumns(m: map<Key, Record>, ks: seq<Key>, boardId: string, name: string, columnIds: seq<string>, now: string)
    requires Enumerates(m, ks) && Typed(m) && |columnIds| == 3 && NoDup(columnIds)
    requires Key(boardId, Board) !in m && forall i :: 0 <= i < 3 ==> Key(columnIds[i], Column) !in m
    requires ColumnList(m, ks, boardId) == []
    ensures var m1 := NewBoardItems(m, boardId, name, columnIds, 3, now);
            var ks1 := NewBoardKeys(ks, boardId, columnIds, 3);
            && Enumerates(m1, ks1) && Typed(m1)
            && Keys(ColumnList(m1, ks1, boardId)) == columnIds
            && (forall i :: 0 <= i < 3 ==>
                  && ColumnList(m1, ks1, boardId)[i].rec.order == Some(DefaultColumns[i].1)
                  && ColumnList(m1, ks1, boardId)[i].rec.name == Some(DefaultColumns[i].0))
  {
    assert |Select(m, ks, ColumnsOf(boardId))| == |ColumnList(m, ks, boardId)|;
    CreateBoardColumnList(m, ks, boardId, name, columnIds, now);
  }

  /** Putting the board item changes no board's column list. */
  lemma BoardPutKeepsColumns(m: map<Key, Record>, ks: seq<Key>, boardId: string, name: string, columnIds: seq<string>, now: string)
    requires Enumerates(m, ks) && Typed(m) && |columnIds| == 3 && NoDup(columnIds)
    requires Key(boardId, Board) !in m && forall i :: 0 <= i < 3 ==> Key(columnIds[i], Column) !in m
    ensures var mb := m[Key(boardId, Board) := BoardRecord(Board, name, now)];
            var ksb := ks + [Key(boardId, Board)];
            && mb == NewBoardItems(m, boardId, name, columnIds, 0, now)
            && ksb == NewBoardKeys(ks, boardId, columnIds, 0)
            && Enumerates(mb, ksb) && Typed(mb)
            && ColumnList(mb, ksb, boardId) == ColumnList(m, ks, boardId)
  {
    var mb := m[Key(boardId, Board) := BoardRecord(Board, name, now)];
    var ksb := ks + [Key(boardId, Board)];
    assert columnIds[..0] == [];
    assert ksb == NewBoardKeys(ks, boardId, columnIds, 0);
    CreateBoardValid(m, ks, boardId, name, columnIds, 0, now);
    CreateBoardSelect(m, ks, boardId, name, columnIds, 0, now, ColumnsOf(boardId));
    assert Select(mb, ksb, ColumnsOf(boardId)) == Select(m, ks, ColumnsOf(boardId));
  }

  /** A created column is listed by `get_columns` for its board, with the order
      it was given; no other item changes. */
  lemma CreatedColumnListed(m: map<Key, Record>, ks: seq<Key>, boardId: string, name: string, order: int, id: string, now: string)
    requires Enumerates(m, ks) && Typed(m) && Key(id, Column) !in m
    ensures var m1 := m[Key(id, Column) := ColumnRecord(boardId, name, Some(order), now)];
            var ks1 := ks + [Key(id, Column)];
            && Enumerates(m1, ks1) && Typed(m1)
            && id in Keys(ColumnList(m1, ks1, boardId))
            && (forall i :: 0 <= i < |ColumnList(m1, ks1, boardId)| && ColumnList(m1, ks1, boardId)[i].key == id ==>
                  ColumnList(m1, ks1, boardId)[i].rec.order == Some(order) && ColumnList(m1, ks1, boardId)[i].rec.name == Some(name))
  {
    var m1 := m[Key(id, Column) := ColumnRecord(boardId, name, Some(order), now)];
    var ks1 := ks + [Key(id, Column)];
    assert Key(id, Column) !in ks;
    ColumnListComplete(m1, ks1, boardId);
  }

  /** A created card is listed by `get_cards` for its column, with the order it was
      given; no other item changes. */
  lemma CreatedCardListed(m: map<Key, Record>, ks: seq<Key>, columnId: string, title: string, description: string, order: int,
                          id: string, now: string)
    requires Enumerates(m, ks) && Typed(m) && Key(id, Card) !in m
    ensures var m1 := m[Key(id, Card) := CardRecord(columnId, title, description, Some(order), now)];
            var ks1 := ks + [Key(id, Card)];
            && Enumerates(m1, ks1) && Typed(m1)
            && id in Keys(CardList(m1, ks1, columnId))
            && (forall i :: 0 <= i < |CardList(m1, ks1, columnId)| && CardList(m1, ks1, columnId)[i].key == id ==>
                  && CardList(m1, ks1, columnId)[i].rec.order == Some(order)
                  && CardList(m1, ks1, columnId)[i].rec.title == Some(title)
                  && CardList(m1, ks1, columnId)[i].rec.description == Some(description))
  {
    var m1 := m[Key(id, Card) := CardRecord(columnId, title, description, Some(order), now)];
    var ks1 := ks + [Key(id, Card)];
    assert Key(id, Card) !in ks;
    CardListComplete(m1, ks1, columnId);
  }

  /** On a list of items of one type, stripping and dropping one id commute. */
  lemma {:induction false} StripDropKey(s: seq<Item<Key>>, id: string, kind: Kind)
    requires forall i :: 0 <= i < |s| ==> s[i].key.kind == kind
    ensures Strip(DropKey(s, Key(id, kind))) == DropKey(Strip(s), id)
  {
    if s != [] {
      var k := Key(id, kind);
      var t := Strip(s);
      StripDropKey(s[1..], id, kind);
      assert t[1..] == Strip(s[1..]);
      assert t[0].key == s[0].key.id;
      if s[0].key == k {
        assert DropKey(t, id) == DropKey(t[1..], id);
      } else {
        assert t[0].key != id;
        StripCons(s[0], DropKey(s[1..], k));
        assert DropKey(s, k) == [s[0]] + DropKey(s[1..], k);
        assert DropKey(t, id) == [t[0]] + DropKey(t[1..], id);
      }
    }
  }

  lemma StripCons(x: Item<Key>, s: seq<Item<Key>>)
    ensures Strip([x] + s) == [Item(x.key.id, x.rec.(kind := None))] + Strip(s)
  {
  }

  /** `delete_card` removes the card from its column's list and closes no gap:
      every other card of every column keeps its entry, order included. */
  lemma DeleteCardLeavesGap(m: map<Key, Record>, ks: seq<Key>, cardId: string, columnId: string)
    requires Typed(m)
    ensures Typed(m - {Key(cardId, Card)})
    ensures CardList(m - {Key(cardId, Card)}, Without(ks, Key(cardId, Card)), columnId) == DropKey(CardList(m, ks, columnId), cardId)
  {
    SelectDelete(m, ks, Key(cardId, Card), CardsOf(columnId));
    SelectTyped(m, ks, CardsOf(columnId), Card);
    StripDropKey(Select(m, ks, CardsOf(columnId)), cardId, Card);
  }

  /** The item `update_item` starts from: the stored one, or, when the key is
      absent, a new item holding only the key's attributes. */
  function Stored(m: map<Key, Record>, k: Key): Record {
    if k in m then m[k] else Record(Some(k.kind), None, None, None, None, None, None, None, None)
  }

  /** The SET clause `update_card` builds: each keyword argument that is not
      `None`, and `updated_at`. */
  function PatchCard(r: Record, title: Option<string>, description: Option<string>, order: Option<int>, now: string): Record {
    r.(title := if title.Some? then title else r.title,
       description := if description.Some? then description else r.description,
       order := if order.Some? then order else r.order,
       updatedAt := Some(now))
  }

  /** `update_card` keeps a stored card in its column, where `get_cards` lists it
      at the same place with the given fields set and every other field kept. */
  lemma UpdateCardKeepsPlace(m: map<Key, Record>, ks: seq<Key>, cardId: string, title: Option<string>, description: Option<string>,
                             order: Option<int>, now: string, columnId: string)
    requires Typed(m) && Key(cardId, Card) in m
    ensures var k := Key(cardId, Card);
            var m1 := m[k := PatchCard(m[k], title, description, order, now)];
            var before := CardList(m, ks, columnId);
            && Typed(m1)
            && Keys(CardList(m1, ks, columnId)) == Keys(before)
            && (forall i :: 0 <= i < |before| ==>
                  CardList(m1, ks, columnId)[i].rec ==
                    if before[i].key == cardId then PatchCard(before[i].rec, title, description, order, now) else before[i].rec)
  {
    var k := Key(cardId, Card);
    var m1 := m[k := PatchCard(m[k], title, description, order, now)];
    SelectFrame(m, m1, ks, CardsOf(columnId));
    SelectTyped(m, ks, CardsOf(columnId), Card);
    StripKeys(Select(m, ks, CardsOf(columnId)), Card);
    StripKeys(Select(m1, ks, CardsOf(columnId)), Card);
    assert Keys(CardList(m1, ks, columnId)) == Keys(CardList(m, ks, columnId));
  }

  /** `update_board` renames a stored board in place: `get_boards` lists the same
      boards in the same order, the renamed one with the new name and
      `updated_at`, the others unchanged. */
  lemma UpdateBoardRenames(m: map<Key, Record>, ks: seq<Key>, boardId: string, name: string, now: string)
    requires Typed(m) && Key(boardId, Board) in m
    ensures var k := Key(boardId, Board);
            var m1 := m[k := m[k].(name := Some(name), updatedAt := Some(now))];
            var before := BoardList(m, ks);
            && Typed(m1)
            && Keys(BoardList(m1, ks)) == Keys(before)
            && (forall i :: 0 <= i < |before| ==>
                  BoardList(m1, ks)[i].rec ==
                    if before[i].key == boardId then before[i].rec.(name := Some(name), updatedAt := Some(now)) else before[i].rec)
  {
    var k := Key(boardId, Board);
    var m1 := m[k := m[k].(name := Some(name), updatedAt := Some(now))];
    SelectFrame(m, m1, ks, OfKind(Board));
    SelectTyped(m, ks, OfKind(Board), Board);
    StripKeys(Select(m, ks, OfKind(Board)), Board);
    StripKeys(Select(m1, ks, OfKind(Board)), Board);
    assert Keys(BoardList(m1, ks)) == Keys(BoardList(m, ks));
  }

  /** A card `move_card` takes from another column joins the target's list as
      one more card, with the old card count as its order: it is appended. */
  lemma MoveCardAppends(m: map<Key, Record>, ks: seq<Key>, cardId: string, columnId: string, now: string)
    requires Enumerates(m, ks) && Typed(m) && Key(cardId, Card) in m
    requires m[Key(cardId, Card)].columnId != Some(columnId)
    ensures var k := Key(cardId, Card);
            var n := |CardList(m, ks, columnId)|;
            var m1 := m[k := Renumbered(m[k], n, Some(columnId), now)];
            && Typed(m1)
            && |CardList(m1, ks, columnId)| == n + 1
            && cardId in Keys(CardList(m1, ks, columnId))
            && m1[k].order == Some(n)
  {
    var k := Key(cardId, Card);
    var n := |CardList(m, ks, columnId)|;
    var m1 := m[k := Renumbered(m[k], n, Some(columnId), now)];
    SelectCountAdd(m, ks, k, Renumbered(m[k], n, Some(columnId), now), CardsOf(columnId));
    CardListComplete(m1, ks, columnId);
  }

  /** A card `move_card` moves within its own column keeps the list's length and
      gets the card count as its order: one past the positions `0..n-1`. */
  lemma MoveCardWithinColumn(m: map<Key, Record>, ks: seq<Key>, cardId: string, columnId: string, now: string)
    requires Typed(m) && Key(cardId, Card) in m
    requires m[Key(cardId, Card)].columnId == Some(columnId)
    ensures var k := Key(cardId, Card);
            var n := |CardList(m, ks, columnId)|;
            var m1 := m[k := Renumbered(m[k], n, Some(columnId), now)];
            && Typed(m1)
            && |CardList(m1, ks, columnId)| == n
            && m1[k].order == Some(n)
  {
    var k := Key(cardId, Card);
    var n := |CardList(m, ks, columnId)|;
    SelectFrame(m, m[k := Renumbered(m[k], n, Some(columnId), now)], ks, CardsOf(columnId));
  }

  /** The keys of the cards `get_cards` lists are exactly the stored cards that
      point at the column. */
  lemma CardKeysOfColumn(m: map<Key, Record>, ks: seq<Key>, c: string)
    requires Enumerates(m, ks) && Typed(m)
    ensures forall k :: k in WithKind(Keys(CardList(m, ks, c)), Card) <==> k in m && Matches(m[k], CardsOf(c))
  {
    CardListComplete(m, ks, c);
    SelectComplete(m, ks, CardsOf(c));
    var q := Select(m, ks, CardsOf(c));
    forall k | k in Keys(q) ensures k in m && Matches(m[k], CardsOf(c)) {
      var i :| 0 <= i < |q| && Keys(q)[i] == k;
    }
  }

  /** Deleting items keeps the enumeration, restricted to what is left, an
      enumeration, and keeps every item typed. */
  lemma EnumeratesAfterDelete(m: map<Key, Record>, ks: seq<Key>, m1: map<Key, Record>)
    requires Enumerates(m, ks) && Typed(m)
    requires forall k :: k in m1 ==> k in m && m1[k] == m[k]
    ensures Enumerates(m1, Restrict(ks, m1)) && Typed(m1)
  {
    RestrictDistinct(ks, m1);
  }

  /** After deletions that spare every item a query matches, the query over the
      remaining enumeration returns what it returned before. */
  lemma SelectAfterDelete(m: map<Key, Record>, ks: seq<Key>, m1: map<Key, Record>, s: Selector)
    requires forall k :: k in m1 ==> k in m && m1[k] == m[k]
    requires forall k :: k in m && Matches(m[k], s) ==> k in m1
    ensures Select(m1, Restrict(ks, m1), s) == Select(m, ks, s)
  {
    SelectRestrict(m1, ks, s);
    SelectSubmap(m, m1, ks, s);
  }

  /** What the corrected `delete_column` leaves: when the column exists, every
      item but the column and the cards that point at it; otherwise everything. */
  function DeleteColumnItems(m: map<Key, Record>, c: string): (r: map<Key, Record>)
    ensures forall k :: k in r ==> k in m && r[k] == m[k]
    ensures Key(c, Column) in m ==> Key(c, Column) !in r && forall k :: k in r ==> !Matches(r[k], CardsOf(c))
    ensures Key(c, Column) !in m ==> r == m
    ensures forall k :: k in m && k != Key(c, Column) && !Matches(m[k], CardsOf(c)) ==> k in r
  {
    if Key(c, Column) in m then map k | k in m && k != Key(c, Column) && !Matches(m[k], CardsOf(c)) :: m[k] else m
  }

  /** Deleting a stored column empties its card list, leaves every other
      column's card list and the board list as they were. */
  lemma DeleteColumnCascade(m: map<Key, Record>, ks: seq<Key>, c: string)
    requires Enumerates(m, ks) && Typed(m)
    ensures var m1 := DeleteColumnItems(m, c);
            var ks1 := Restrict(ks, m1);
            && Enumerates(m1, ks1) && Typed(m1)
            && (Key(c, Column) in m ==> Key(c, Column) !in m1 && CardList(m1, ks1, c) == [])
            && (forall c' :: c' != c ==> CardList(m1, ks1, c') == CardList(m, ks, c'))
            && BoardList(m1, ks1) == BoardList(m, ks)
  {
    var m1 := DeleteColumnItems(m, c);
    var ks1 := Restrict(ks, m1);
    EnumeratesAfterDelete(m, ks, m1);
    if Key(c, Column) in m {
      SelectNothing(m1, ks1, CardsOf(c));
    }
    forall c' | c' != c ensures CardList(m1, ks1, c') == CardList(m, ks, c') {
      SelectAfterDelete(m, ks, m1, CardsOf(c'));
    }
    SelectAfterDelete(m, ks, m1, OfKind(Board));
  }

  /** A card that points at one of the columns `ids`. */
  predicate InColumns(r: Record, ids: seq<string>) {
    r.kind == Some(Card) && r.columnId.Some? && r.columnId.value in ids
  }

  /** What deleting the columns `ids` one by one leaves: every item but those
      columns and the cards in them. */
  function ClearColumns(m: map<Key, Record>, ids: seq<string>): (r: map<Key, Record>)
    ensures forall k :: k in r ==> k in m && r[k] == m[k]
    ensures forall k :: k in r ==> !(k.kind == Column && k.id in ids) && !InColumns(r[k], ids)
    ensures forall k :: k in m && !(k.kind == Column && k.id in ids) && !InColumns(m[k], ids) ==> k in r
  {
    map k | k in m && !(k.kind == Column && k.id in ids) && !InColumns(m[k], ids) :: m[k]
  }

  /** Clearing no column deletes nothing. */
  lemma ClearNoColumns(m: map<Key, Record>)
    ensures ClearColumns(m, []) == m
  {
  }

  /** One more stored column deleted is one more column cleared. */
  lemma ClearColumnsStep(m: map<Key, Record>, ids: seq<string>, i: nat)
    requires Typed(m) && i < |ids| && NoDup(ids)
    requires forall id :: id in ids ==> Key(id, Column) in m
    ensures Key(ids[i], Column) in ClearColumns(m, ids[..i])
    ensures DeleteColumnItems(ClearColumns(m, ids[..i]), ids[i]) == ClearColumns(m, ids[..i + 1])
  {
    assert ids[i] !in ids[..i] by {
      assert forall j :: 0 <= j < i ==> ids[..i][j] == ids[j] != ids[i];
    }
    assert ids[..i + 1] == ids[..i] + [ids[i]];
    var a := DeleteColumnItems(ClearColumns(m, ids[..i]), ids[i]);
    var b := ClearColumns(m, ids[..i + 1]);
    forall k | k in m ensures k in a <==> k in b {
      if k.kind == Card {
        assert Matches(m[k], CardsOf(ids[i])) <==> m[k].kind == Some(Card) && m[k].columnId == Some(ids[i]);
      }
    }
  }

  /** After the corrected `delete_board` no stored item is one of the board's
      columns or a card of a listed column. */
  lemma ClearedBoard(m: map<Key, Record>, ks: seq<Key>, b: string)
    requires Enumerates(m, ks) && Typed(m)
    ensures var ids := Keys(ColumnList(m, ks, b));
            var m1 := ClearColumns(m, ids) - {Key(b, Board)};
            && (forall k :: k in m1 ==> !Matches(m1[k], ColumnsOf(b)))
            && (forall k, c :: k in m1 && c in ids ==> !Matches(m1[k], CardsOf(c)))
  {
    var ids := Keys(ColumnList(m, ks, b));
    ColumnListComplete(m, ks, b);
    forall k | k in m && Matches(m[k], ColumnsOf(b)) ensures k.kind == Column && k.id in ids {
    }
  }

  /** The corrected `delete_board` deletes the board, every column `get_columns`
      listed for it and every card in those columns: afterwards the board is
      gone, it has no columns and those columns have no cards. */
  lemma DeleteBoardEmpties(m: map<Key, Record>, ks: seq<Key>, b: string)
    requires Enumerates(m, ks) && Typed(m)
    ensures var ids := Keys(ColumnList(m, ks, b));
            var m1 := ClearColumns(m, ids) - {Key(b, Board)};
            var ks1 := Restrict(ks, m1);
            && Enumerates(m1, ks1) && Typed(m1)
            && Key(b, Board) !in m1
            && ColumnList(m1, ks1, b) == []
            && (forall c :: c in ids ==> CardList(m1, ks1, c) == [])
  {
    var ids := Keys(ColumnList(m, ks, b));
    var m1 := ClearColumns(m, ids) - {Key(b, Board)};
    var ks1 := Restrict(ks, m1);
    EnumeratesAfterDelete(m, ks, m1);
    ClearedBoard(m, ks, b);
    SelectNothing(m1, ks1, ColumnsOf(b));
    forall c | c in ids ensures CardList(m1, ks1, c) == [] {
      SelectNothing(m1, ks1, CardsOf(c));
    }
  }

  /** The corrected `delete_board` leaves every other board's column list and
      every other column's card list as they were. */
  lemma DeleteBoardSpares(m: map<Key, Record>, ks: seq<Key>, b: string)
    requires Enumerates(m, ks) && Typed(m)
    ensures var ids := Keys(ColumnList(m, ks, b));
            var m1 := ClearColumns(m, ids) - {Key(b, Board)};
            var ks1 := Restrict(ks, m1);
            && Enumerates(m1, ks1) && Typed(m1)
            && (forall b' :: b' != b ==> ColumnList(m1, ks1, b') == ColumnList(m, ks, b'))
            && (forall c :: c !in ids ==> CardList(m1, ks1, c) == CardList(m, ks, c))
  {
    var ids := Keys(ColumnList(m, ks, b));
    var m1 := ClearColumns(m, ids) - {Key(b, Board)};
    EnumeratesAfterDelete(m, ks, m1);
    forall b' | b' != b ensures ColumnList(m1, Restrict(ks, m1), b') == ColumnList(m, ks, b') {
      OtherBoardSpared(m, ks, b, b');
    }
    forall c | c !in ids ensures CardList(m1, Restrict(ks, m1), c) == CardList(m, ks, c) {
      OtherColumnSpared(m, ks, b, c);
    }
  }

  lemma OtherBoardSpared(m: map<Key, Record>, ks: seq<Key>, b: string, b': string)
    requires Enumerates(m, ks) && Typed(m) && b' != b
    ensures var m1 := ClearColumns(m, Keys(ColumnList(m, ks, b))) - {Key(b, Board)};
            Select(m1, Restrict(ks, m1), ColumnsOf(b')) == Select(m, ks, ColumnsOf(b'))
  {
    var ids := Keys(ColumnList(m, ks, b));
    var m1 := ClearColumns(m, ids) - {Key(b, Board)};
    BoardColumnsListed(m, ks, b);
    forall k | k in m && Matches(m[k], ColumnsOf(b')) ensures k in m1 {
      assert k.kind == Column && k.id !in ids;
    }
    SelectAfterDelete(m, ks, m1, ColumnsOf(b'));
  }

  lemma OtherColumnSpared(m: map<Key, Record>, ks: seq<Key>, b: string, c: string)
    requires Enumerates(m, ks) && Typed(m) && c !in Keys(ColumnList(m, ks, b))
    ensures var m1 := ClearColumns(m, Keys(ColumnList(m, ks, b))) - {Key(b, Board)};
            Select(m1, Restrict(ks, m1), CardsOf(c)) == Select(m, ks, CardsOf(c))
  {
    var ids := Keys(ColumnList(m, ks, b));
    var m1 := ClearColumns(m, ids) - {Key(b, Board)};
    forall k | k in m && Matches(m[k], CardsOf(c)) ensures k in m1 {
      assert k.kind == Card && !InColumns(m[k], ids);
    }
    SelectAfterDelete(m, ks, m1, CardsOf(c));
  }

  /** Every id `get_columns` lists names a stored column of that board. */
  lemma BoardColumnsListed(m: map<Key, Record>, ks: seq<Key>, b: string)
    requires Enumerates(m, ks) && Typed(m)
    ensures forall id :: id in Keys(ColumnList(m, ks, b)) ==> Key(id, Column) in m && m[Key(id, Column)].boardId == Some(b)
  {
    var cols := ColumnList(m, ks, b);
    forall id | id in Keys(cols) ensures Key(id, Column) in m && m[Key(id, Column)].boardId == Some(b) {
      var i :| 0 <= i < |cols| && Keys(cols)[i] == id;
    }
  }

  /** The `updates` list built over the listed ids, with each id made a column
      key again. */
  function ColumnKeys(us: seq<Update<string>>): (r: seq<Update<Key>>)
    ensures |r| == |us| && forall j :: 0 <= j < |us| ==> r[j] == Update(Key(us[j].id, Column), us[j].order)
  {
    seq(|us|, j requires 0 <= j < |us| => Update(Key(us[j].id, Column), us[j].order))
  }

  /** The column puts built over the listed ids, each written under its column key. */
  function ColumnItems(ps: seq<Item<string>>): (r: seq<Item<Key>>)
    ensures |r| == |ps| && forall j :: 0 <= j < |ps| ==> r[j] == Item(Key(ps[j].key, Column), ps[j].rec)
  {
    seq(|ps|, j requires 0 <= j < |ps| => Item(Key(ps[j].key, Column), ps[j].rec))
  }

  /** Building the `updates` list over the stripped column list, which compares
      ids, is building it over the stored column items, which compare keys. */
  lemma {:induction false} StripUpdates(cols: seq<Item<Key>>, c: string, current: int, target: int)
    requires forall i :: 0 <= i < |cols| ==> cols[i].key.kind == Column
    ensures ColumnKeys(ColumnUpdates(Strip(cols), c, current, target)) == ColumnUpdates(cols, Key(c, Column), current, target)
    decreases |cols|
  {
    if cols != [] {
      var n := |cols| - 1;
      var sc := Strip(cols);
      assert sc[..n] == Strip(cols[..n]);
      StripUpdates(cols[..n], c, current, target);
      var front := ColumnUpdates(sc[..n], c, current, target);
      assert OrderKey(sc[n].rec) == OrderKey(cols[n].rec);
      assert (sc[n].key == c) <==> (cols[n].key == Key(c, Column));
      match NewOrder(sc[n], c, current, target)
      case Some(o) =>
        assert ColumnKeys(front + [Update(sc[n].key, o)]) == ColumnKeys(front) + [Update(cols[n].key, o)];
      case None =>
    }
  }

  /** The first listed name under an id is the first stored name under its key. */
  lemma {:induction false} StripFirstName(cols: seq<Item<Key>>, id: string)
    requires forall i :: 0 <= i < |cols| ==> cols[i].key.kind == Column
    ensures FirstName(Strip(cols), id) == FirstName(cols, Key(id, Column))
    decreases |cols|
  {
    if cols != [] {
      assert Strip(cols)[1..] == Strip(cols[1..]);
      StripFirstName(cols[1..], id);
    }
  }

  /** The rotation's puts over the stripped list are its puts over the stored
      items, once each id is made a column key again. */
  lemma StripPuts(us: seq<Update<string>>, cols: seq<Item<Key>>, b: string, now: string)
    requires forall i :: 0 <= i < |cols| ==> cols[i].key.kind == Column
    ensures ColumnItems(ColumnPuts(us, Strip(cols), b, now)) == ColumnPuts(ColumnKeys(us), cols, b, now)
  {
    forall j | 0 <= j < |us| ensures FirstName(Strip(cols), us[j].id) == FirstName(cols, Key(us[j].id, Column)) {
      StripFirstName(cols, us[j].id);
    }
  }

  /** A column `move_column` accepts: a stored column with a non-empty `board_id`. */
  predicate Movable(m: map<Key, Record>, c: string) {
    Key(c, Column) in m && Truthy(m[Key(c, Column)].boardId)
  }

  function BoardOf(m: map<Key, Record>, c: string): string
    requires Movable(m, c)
  {
    m[Key(c, Column)].boardId.value
  }

  /** The position of the moved column in its board's sorted column list. */
  ghost function MovedPosition(m: map<Key, Record>, ks: seq<Key>, c: string): (p: nat)
    requires Enumerates(m, ks) && Typed(m) && Movable(m, c)
    ensures var cols := ColumnsByOrder(m, ks, BoardOf(m, c));
            p < |cols| && cols[p].key == Key(c, Column) && cols[p].rec == m[Key(c, Column)]
  {
    ColumnsByOrderFacts(m, ks, BoardOf(m, c));
    LastIndex(Keys(ColumnsByOrder(m, ks, BoardOf(m, c))), Key(c, Column))
  }

  /** The items after the batch of rotation puts over the board's sorted columns. */
  function ColumnsRotated(m: map<Key, Record>, ks: seq<Key>, c: string, target: int, now: string): map<Key, Record>
    requires Movable(m, c)
  {
    var b := BoardOf(m, c);
    RotateColumns(m, ColumnsByOrder(m, ks, b), Key(c, Column), OrderKey(m[Key(c, Column)]), target, b, now)
  }

  /** The items after `move_column` as evidently intended: the rotation, then the
      moved column's cards renumbered in query order. */
  function MoveColumnEffect(m: map<Key, Record>, ks: seq<Key>, c: string, target: int, now: string): map<Key, Record>
    requires Movable(m, c)
  {
    var m1 := ColumnsRotated(m, ks, c, target, now);
    SetOrders(m1, Keys(Select(m1, ks, CardsOf(c))), 0, Some(c), now)
  }

  /** The puts `move_column` builds over `get_columns` are the rotation's puts
      over the board's sorted column items, and each names a stored column. */
  lemma RotationPuts(m: map<Key, Record>, ks: seq<Key>, c: string, target: int, now: string)
    requires Enumerates(m, ks) && Typed(m) && Movable(m, c)
    ensures var b := BoardOf(m, c);
            var cbo := ColumnsByOrder(m, ks, b);
            var cur := OrderKey(m[Key(c, Column)]);
            var ps := ColumnItems(ColumnPuts(ColumnUpdates(ColumnList(m, ks, b), c, cur, target), ColumnList(m, ks, b), b, now));
            && ps == ColumnPuts(ColumnUpdates(cbo, Key(c, Column), cur, target), cbo, b, now)
            && (forall j :: 0 <= j < |ps| ==> ps[j].key in m)
  {
    var b := BoardOf(m, c);
    var cbo := ColumnsByOrder(m, ks, b);
    var cur := OrderKey(m[Key(c, Column)]);
    ColumnsByOrderFacts(m, ks, b);
    StripUpdates(cbo, c, cur, target);
    StripPuts(ColumnUpdates(Strip(cbo), c, cur, target), cbo, b, now);
    var us := ColumnUpdates(cbo, Key(c, Column), cur, target);
    forall j | 0 <= j < |us| ensures us[j].id in m {
      UpdatesListed(cbo, Key(c, Column), cur, target, j);
    }
  }

  /** The rotation rewrites only the board's listed columns, each keeping its
      type, board and name and taking the order `Rotate` gives its position;
      it adds no key and keeps every item typed. */
  lemma ColumnsRotatedFacts(m: map<Key, Record>, ks: seq<Key>, c: string, target: int, now: string)
    requires Enumerates(m, ks) && Typed(m) && Movable(m, c)
    ensures var b := BoardOf(m, c);
            var cols := ColumnsByOrder(m, ks, b);
            var m1 := ColumnsRotated(m, ks, c, target, now);
            && m1.Keys == m.Keys && Typed(m1)
            && (forall k :: k in m && k !in Keys(cols) ==> m1[k] == m[k])
            && (forall i :: 0 <= i < |cols| ==> cols[i].key in m)
            && (forall i :: 0 <= i < |cols| ==>
                  && m1[cols[i].key].kind == Some(Column)
                  && m1[cols[i].key].boardId == Some(b)
                  && m1[cols[i].key].name == cols[i].rec.name
                  && OrderKey(m1[cols[i].key]) == Rotate(OrderKeysOf(cols), MovedPosition(m, ks, c), target)[i])
  {
    var b := BoardOf(m, c);
    var cols := ColumnsByOrder(m, ks, b);
    var m1 := ColumnsRotated(m, ks, c, target, now);
    ColumnsByOrderFacts(m, ks, b);
    var p := MovedPosition(m, ks, c);
    RotateColumnsValue(m, cols, Key(c, Column), OrderKey(m[Key(c, Column)]), target, b, now);
    forall i | 0 <= i < |cols|
      ensures && m1[cols[i].key].kind == Some(Column)
              && m1[cols[i].key].boardId == Some(b)
              && m1[cols[i].key].name == cols[i].rec.name
              && OrderKey(m1[cols[i].key]) == Rotate(OrderKeysOf(cols), p, target)[i]
    {
      RotatedRecordAt(m, cols, p, target, b, now, i);
    }
    forall k | k in m1 ensures m1[k].kind == Some(k.kind) {
      if k in Keys(cols) {
        var i :| 0 <= i < |cols| && Keys(cols)[i] == k;
      }
    }
  }

  /** A renumbering keeps every item typed. */
  lemma RenumberTyped(m: map<Key, Record>, xs: seq<Key>, base: int, col: Option<string>, now: string)
    requires Typed(m)
    ensures Typed(SetOrders(m, xs, base, col, now))
  {
    SetOrdersValue(m, xs, base, col, now);
  }

  /** The `order` values (a missing one counting as 0) stored under `ks`, in order. */
  function OrdersOf(m: map<Key, Record>, ks: seq<Key>): (r: seq<int>)
    requires forall i :: 0 <= i < |ks| ==> ks[i] in m
    ensures |r| == |ks| && forall i :: 0 <= i < |ks| ==> r[i] == OrderKey(m[ks[i]])
  {
    seq(|ks|, i requires 0 <= i < |ks| => OrderKey(m[ks[i]]))
  }

  /** The orders of listed keys, read off item by item. */
  lemma OrdersOfPointwise(m: map<Key, Record>, cols: seq<Item<Key>>, xs: seq<int>)
    requires |xs| == |cols|
    requires forall i :: 0 <= i < |cols| ==> cols[i].key in m && OrderKey(m[cols[i].key]) == xs[i]
    ensures forall i :: 0 <= i < |Keys(cols)| ==> Keys(cols)[i] in m
    ensures OrdersOf(m, Keys(cols)) == xs
  {
  }

  /** `move_column` on the board's columns: the moved column takes `target`; when
      it moves later, the siblings with `current < o <= target` take `o - 1`;
      otherwise those with `target <= o < current` take `o + 1`; every column keeps
      its type, board and name. Nothing but those columns and the moved column's
      cards changes, and no key is added. */
  lemma MoveColumnRotates(m: map<Key, Record>, ks: seq<Key>, c: string, target: int, now: string)
    requires Enumerates(m, ks) && Typed(m) && Movable(m, c)
    ensures var b := BoardOf(m, c);
            var cols := ColumnsByOrder(m, ks, b);
            var m2 := MoveColumnEffect(m, ks, c, target, now);
            && m2.Keys == m.Keys && Typed(m2)
            && (forall i :: 0 <= i < |cols| ==> cols[i].key in m)
            && (forall i :: 0 <= i < |cols| ==>
                  && m2[cols[i].key].kind == Some(Column)
                  && m2[cols[i].key].boardId == Some(b)
                  && m2[cols[i].key].name == cols[i].rec.name
                  && OrderKey(m2[cols[i].key]) == Rotate(OrderKeysOf(cols), MovedPosition(m, ks, c), target)[i])
            && (forall k :: k in m && k !in Keys(cols) && !Matches(m[k], CardsOf(c)) ==> m2[k] == m[k])
  {
    var m1 := ColumnsRotated(m, ks, c, target, now);
    ColumnsRotatedFacts(m, ks, c, target, now);
    var xs := Keys(Select(m1, ks, CardsOf(c)));
    SetOrdersValue(m1, xs, 0, Some(c), now);
    RenumberTyped(m1, xs, 0, Some(c), now);
    SelectKeys(m1, ks, CardsOf(c));
  }

  /** The rotation touches no item that is not a column, so every query for
      cards returns what it returned before. */
  lemma RotationSparesCards(m: map<Key, Record>, ks: seq<Key>, c: string, target: int, now: string, c': string)
    requires Enumerates(m, ks) && Typed(m) && Movable(m, c)
    ensures var m1 := ColumnsRotated(m, ks, c, target, now);
            && (forall k :: k in m && m[k].kind != Some(Column) ==> k in m1 && m1[k] == m[k])
            && Select(m1, ks, CardsOf(c')) == Select(m, ks, CardsOf(c'))
  {
    var b := BoardOf(m, c);
    var m1 := ColumnsRotated(m, ks, c, target, now);
    ColumnsRotatedFacts(m, ks, c, target, now);
    var cols := ColumnsByOrder(m, ks, b);
    ColumnsByOrderFacts(m, ks, b);
    forall k | k in Keys(cols) ensures m[k].kind == Some(Column) {
      var i :| 0 <= i < |cols| && Keys(cols)[i] == k;
    }
    SelectUnchanged(m, m1, ks, CardsOf(c'));
  }

  /** Stripping commutes with renumbering a list entry by entry. */
  lemma StripRenumbered(v: seq<Item<Key>>, q: seq<Item<Key>>, now: string)
    requires Keys(v) == Keys(q)
    requires forall i :: 0 <= i < |q| ==> v[i].rec == q[i].rec.(order := Some(i), updatedAt := Some(now))
    ensures Keys(Strip(v)) == Keys(Strip(q))
    ensures forall i :: 0 <= i < |q| ==> Strip(v)[i].rec == Strip(q)[i].rec.(order := Some(i), updatedAt := Some(now))
  {
    assert |v| == |Keys(v)|;
    forall i | 0 <= i < |q| ensures Keys(Strip(v))[i] == Keys(Strip(q))[i] {
      assert v[i].key == Keys(v)[i];
    }
  }

  /** After the rotation, `move_column` gives the moved column's cards the orders
      `0..k-1` in `get_cards` order, leaves them in that column, and changes no
      card of another column. */
  lemma MoveColumnRenumbersCards(m: map<Key, Record>, ks: seq<Key>, c: string, target: int, now: string)
    requires Enumerates(m, ks) && Typed(m) && Movable(m, c)
    ensures var m2 := MoveColumnEffect(m, ks, c, target, now);
            var before := CardList(m, ks, c);
            && Typed(m2)
            && Keys(CardList(m2, ks, c)) == Keys(before)
            && (forall i :: 0 <= i < |before| ==>
                  CardList(m2, ks, c)[i].rec == before[i].rec.(order := Some(i), updatedAt := Some(now)))
            && (forall k :: k in m && m[k].kind == Some(Card) && m[k].columnId != Some(c) ==> m2[k] == m[k])
  {
    var m1 := ColumnsRotated(m, ks, c, target, now);
    RotationSparesCards(m, ks, c, target, now, c);
    ColumnsRotatedFacts(m, ks, c, target, now);
    var q := Select(m1, ks, CardsOf(c));
    var xs := Keys(q);
    SelectKeys(m1, ks, CardsOf(c));
    forall j | 0 <= j < |xs| ensures xs[j] in m1 && m1[xs[j]].columnId == Some(c) {
      assert xs[j] in xs;
    }
    SetOrdersSameColumn(m1, xs, 0, c, now);
    RenumberQueryRecords(m1, ks, CardsOf(c), now);
    var m2 := SetOrders(m1, xs, 0, None, now);
    RenumberTyped(m1, xs, 0, None, now);
    StripRenumbered(Select(m2, ks, CardsOf(c)), q, now);
    SetOrdersValue(m1, xs, 0, None, now);
  }

  /** When the board's column orders are a permutation of `0..n-1` and
      `0 <= target < n`, the orders of the same columns are one after the move. */
  lemma MoveColumnKeepsPermutation(m: map<Key, Record>, ks: seq<Key>, c: string, target: int, now: string)
    requires Enumerates(m, ks) && Typed(m) && Movable(m, c)
    requires IsPermutation(OrderKeysOf(ColumnsByOrder(m, ks, BoardOf(m, c))))
    requires 0 <= target < |ColumnsByOrder(m, ks, BoardOf(m, c))|
    ensures var cols := ColumnsByOrder(m, ks, BoardOf(m, c));
            && (forall i :: 0 <= i < |cols| ==> cols[i].key in MoveColumnEffect(m, ks, c, target, now))
            && IsPermutation(OrdersOf(MoveColumnEffect(m, ks, c, target, now), Keys(cols)))
  {
    var cols := ColumnsByOrder(m, ks, BoardOf(m, c));
    MoveColumnRotates(m, ks, c, target, now);
    var p := MovedPosition(m, ks, c);
    RotationKeepsPermutation(OrderKeysOf(cols), p, target);
    OrdersOfPointwise(MoveColumnEffect(m, ks, c, target, now), cols, Rotate(OrderKeysOf(cols), p, target));
  }

  /** How a call ends: it returns a value, or it raises the `NameError` that any
      use of the module-level name `logger`, which the module never defines,
      raises. */
  datatype Completion<T> = Returned(value: T) | NameError

  /** A call's completion and the items it leaves behind. */
  datatype Run<T> = Run(outcome: Completion<T>, items: map<Key, Record>)

  /** `delete_column` as written: when the column exists, the first
      `logger.info` after `get_cards` raises; when it does not, the handler's
      `logger.error` raises. Either way no delete has been issued. */
  function DeleteColumnAsWritten(m: map<Key, Record>, c: string): Run<bool> {
    Run(NameError, m)
  }

  /** `delete_board` as written: the first `delete_column` call raises, and
      `NameError` is not the `ClientError` the method catches; only a board
      without columns is deleted. */
  function DeleteBoardAsWritten(m: map<Key, Record>, ks: seq<Key>, b: string): Run<bool>
    requires Enumerates(m, ks) && Typed(m)
  {
    if ColumnList(m, ks, b) == [] then Run(Returned(true), m - {Key(b, Board)})
    else
      var first := DeleteColumnAsWritten(m, ColumnList(m, ks, b)[0].key);
      Run(first.outcome, first.items)
  }

  /** `move_column` as written: the rotation puts are written, then the
      `logger.info` before the card loop raises, the generic handler catches it
      and the call returns `None`; the cards are never renumbered. */
  function MoveColumnAsWritten(m: map<Key, Record>, ks: seq<Key>, c: string, target: int, now: string): Run<Option<Record>> {
    if Movable(m, c) then Run(Returned(None), ColumnsRotated(m, ks, c, target, now))
    else Run(Returned(None), m)
  }

  /** As written, deleting a column that holds cards raises and leaves the cards
      listed, where the corrected deletion empties the list. */
  lemma DeleteColumnAsWrittenKeepsCards(m: map<Key, Record>, ks: seq<Key>, c: string)
    requires Enumerates(m, ks) && Typed(m) && Key(c, Column) in m
    ensures var w := DeleteColumnAsWritten(m, c);
            var m1 := DeleteColumnItems(m, c);
            && w.outcome == NameError
            && Key(c, Column) in w.items
            && CardList(w.items, ks, c) == CardList(m, ks, c)
            && Key(c, Column) !in m1
            && CardList(m1, Restrict(ks, m1), c) == []
  {
    DeleteColumnCascade(m, ks, c);
  }

  /** As written, deleting a board that has a column raises and deletes nothing:
      the board and its columns stay listed, where the corrected deletion
      removes them. */
  lemma DeleteBoardAsWrittenKeepsBoard(m: map<Key, Record>, ks: seq<Key>, b: string)
    requires Enumerates(m, ks) && Typed(m) && Key(b, Board) in m && ColumnList(m, ks, b) != []
    ensures var w := DeleteBoardAsWritten(m, ks, b);
            var m1 := ClearColumns(m, Keys(ColumnList(m, ks, b))) - {Key(b, Board)};
            && w.outcome == NameError
            && w.items == m
            && Key(b, Board) !in m1
            && Enumerates(m1, Restrict(ks, m1)) && Typed(m1)
            && ColumnList(m1, Restrict(ks, m1), b) == []
  {
    DeleteBoardEmpties(m, ks, b);
  }

  /** As written, `move_column` reports failure for every column, moves the
      columns anyway and leaves the cards as they were; the corrected version
      numbers them `0..k-1`, so the two differ whenever a card's order is not
      its position. */
  lemma MoveColumnAsWrittenSkipsCards(m: map<Key, Record>, ks: seq<Key>, c: string, target: int, now: string, i: nat)
    requires Enumerates(m, ks) && Typed(m) && Movable(m, c)
    requires i < |CardList(m, ks, c)| && CardList(m, ks, c)[i].rec.order != Some(i)
    ensures var w := MoveColumnAsWritten(m, ks, c, target, now);
            && w.outcome == Returned(None)
            && Typed(w.items)
            && CardList(w.items, ks, c) == CardList(m, ks, c)
            && w.items != MoveColumnEffect(m, ks, c, target, now)
  {
    RotationSparesCards(m, ks, c, target, now, c);
    ColumnsRotatedFacts(m, ks, c, target, now);
    MoveColumnRenumbersCards(m, ks, c, target, now);
  }

  /** `', '.join(parts)`. */
  function Join(parts: seq<string>): string {
    if parts == [] then "" else if |parts| == 1 then parts[0] else parts[0] + ", " + Join(parts[1..])
  }

  /** A joined list starts with its first part. */
  lemma JoinStartsWithFirst(parts: seq<string>)
    requires parts != []
    ensures |parts[0]| <= |Join(parts)| && Join(parts)[..|parts[0]|] == parts[0]
  {
    if |parts| > 1 {
      assert Join(parts) == parts[0] + (", " + Join(parts[1..]));
    }
  }

  /** The assignments of `update_column`: the name, the order when one is given,
      and `updated_at`; `head` is the first one as the method writes it. */
  function ColumnClauses(head: string, order: Option<int>): seq<string> {
    [head] + (if order.Some? then ["#order = :order"] else []) + ["#updated_at = :updated_at"]
  }

  /** The update expression `update_column` sends as written: the first clause
      already carries the `SET` keyword and the method prefixes another. */
  function UpdateColumnExpressionAsWritten(order: Option<int>): string {
    "SET " + Join(ColumnClauses("SET #name = :name", order))
  }

  /** The update expression evidently intended: one `SET` keyword. */
  function UpdateColumnExpression(order: Option<int>): string {
    "SET " + Join(ColumnClauses("#name = :name", order))
  }

  /** Whatever the arguments, the expression as written opens with the keyword
      twice, which the update grammar rejects, while the intended one opens with
      one keyword and the first assignment. */
  lemma UpdateColumnKeywordDoubled(order: Option<int>)
    ensures |UpdateColumnExpressionAsWritten(order)| >= 8 && UpdateColumnExpressionAsWritten(order)[..8] == "SET SET "
    ensures |UpdateColumnExpression(order)| >= 9 && UpdateColumnExpression(order)[..9] == "SET #name"
  {
    JoinStartsWithFirst(ColumnClauses("SET #name = :name", order));
    JoinStartsWithFirst(ColumnClauses("#name = :name", order));
    var w := Join(ColumnClauses("SET #name = :name", order));
    assert w[..4] == "SET " by {
      assert w[..17][..4] == w[..4];
    }
    var c := Join(ColumnClauses("#name = :name", order));
    assert c[..5] == "#name" by {
      assert c[..13][..5] == c[..5];
    }
  }

  /** `update_column` as written: the service rejects the expression with a
      `ClientError`, which the method catches; it returns `None` and writes
      nothing. */
  function UpdateColumnAsWritten(m: map<Key, Record>): Run<Option<Record>> {
    Run(Returned(None), m)
  }

  /** The item `update_column` as evidently intended writes: the stored column
      (or a new one) with the new name, the new order when one is given, and
      `updated_at`. */
  function PatchColumn(r: Record, name: string, order: Option<int>, now: string): Record {
    r.(name := Some(name), order := if order.Some? then order else r.order, updatedAt := Some(now))
  }

  /** As written, `update_column` changes nothing; as intended, a stored column
      keeps its board, stays among the board's columns and takes the new name. */
  lemma UpdateColumnAsWrittenChangesNothing(m: map<Key, Record>, ks: seq<Key>, c: string, name: string, order: Option<int>, now: string)
    requires Typed(m) && Key(c, Column) in m && m[Key(c, Column)].name != Some(name)
    ensures var w := UpdateColumnAsWritten(m);
            var k := Key(c, Column);
            var m1 := m[k := PatchColumn(m[k], name, order, now)];
            && w.outcome == Returned(None) && w.items == m
            && w.items[k].name != Some(name)
            && m1[k].name == Some(name)
            && (m[k].boardId.Some? ==>
                  Keys(Select(m1, ks, ColumnsOf(m[k].boardId.value))) == Keys(Select(m, ks, ColumnsOf(m[k].boardId.value))))
  {
    var k := Key(c, Column);
    if m[k].boardId.Some? {
      SelectFrame(m, m[k := PatchColumn(m[k], name, order, now)], ks, ColumnsOf(m[k].boardId.value));
    }
  }

  class DynamoDBAdapter {
    const table: Table<Key>

    constructor (t: Table<Key>)
      ensures table == t
    {
      table := t;
    }

    ghost predicate Valid()
      reads this, table
    {
      table.Valid() && Typed(table.items)
    }

    function GetBoards(): seq<Item<string>>
      requires Valid()
      reads this, table
    {
      BoardList(table.items, table.keys)
    }

    function GetColumns(boardId: string): seq<Item<string>>
      requires Valid()
      reads this, table
    {
      ColumnList(table.items, table.keys, boardId)
    }

    function GetCards(columnId: string): seq<Item<string>>
      requires Valid()
      reads this, table
    {
      CardList(table.items, table.keys, columnId)
    }

    /** `create_column`: one put of the new column with the order as given (the
        default is 0); no sibling is written. */
    method CreateColumn(boardId: string, name: string, order: int, id: string, now: string) returns (r: string)
      requires Valid() && Key(id, Column) !in table.items
      modifies table
      ensures Valid() && r == id
      ensures table.items == old(table.items)[Key(id, Column) := ColumnRecord(boardId, name, Some(order), now)]
      ensures table.keys == old(table.keys) + [Key(id, Column)]
    {
      table.Put(Key(id, Column), ColumnRecord(boardId, name, Some(order), now));
      r := id;
    }

    /** `create_card`: one put of the new card with the order as given (the
        default is 0); no sibling is written. */
    method CreateCard(columnId: string, title: string, description: string, order: int, id: string, now: string) returns (r: string)
      requires Valid() && Key(id, Card) !in table.items
      modifies table
      ensures Valid() && r == id
      ensures table.items == old(table.items)[Key(id, Card) := CardRecord(columnId, title, description, Some(order), now)]
      ensures table.keys == old(table.keys) + [Key(id, Card)]
    {
      table.Put(Key(id, Card), CardRecord(columnId, title, description, Some(order), now));
      r := id;
    }

    /** `create_board`: puts the board, then writes the three default columns when
        `get_columns` finds none for its id. */
    method CreateBoard(name: string, boardId: string, columnIds: seq<string>, now: string) returns (r: string)
      requires Valid() && |columnIds| == 3 && NoDup(columnIds)
      requires Key(boardId, Board) !in table.items && forall i :: 0 <= i < 3 ==> Key(columnIds[i], Column) !in table.items
      modifies table
      ensures Valid() && r == boardId
      ensures var n := old(DefaultCount(table.items, table.keys, boardId));
              && table.items == NewBoardItems(old(table.items), boardId, name, columnIds, n, now)
              && table.keys == NewBoardKeys(old(table.keys), boardId, columnIds, n)
    {
      ghost var m0 := table.items;
      ghost var ks0 := table.keys;
      table.Put(Key(boardId, Board), BoardRecord(Board, name, now));
      BoardPutKeepsColumns(m0, ks0, boardId, name, columnIds, now);
      var existing := GetColumns(boardId);
      assert columnIds[..3] == columnIds;
      if existing == [] {
        CreateDefaultColumns(boardId, columnIds, now);
      }
      r := boardId;
    }

    /** The loop of `create_board` that creates the default columns. */
    method CreateDefaultColumns(boardId: string, columnIds: seq<string>, now: string)
      requires Valid() && |columnIds| == 3 && NoDup(columnIds)
      requires forall i :: 0 <= i < 3 ==> Key(columnIds[i], Column) !in table.items
      modifies table
      ensures Valid()
      ensures table.items == WithDefaultColumns(old(table.items), boardId, columnIds, 3, now)
      ensures table.keys == old(table.keys) + WithKind(columnIds, Column)
    {
      ghost var m0 := table.items;
      ghost var ks0 := table.keys;
      var i := 0;
      while i < |DefaultColumns|
        invariant 0 <= i <= 3
        invariant Valid()
        invariant table.items == WithDefaultColumns(m0, boardId, columnIds, i, now)
        invariant table.keys == ks0 + WithKind(columnIds[..i], Column)
      {
        DefaultColumnFresh(m0, boardId, columnIds, i, now);
        ghost var before := table.keys;
        var _ := CreateColumn(boardId, DefaultColumns[i].0, DefaultColumns[i].1, columnIds[i], now);
        DefaultColumnKeys(ks0, before, columnIds, i);
        DefaultColumnWritten(m0, boardId, columnIds, i, now);
        i := i + 1;
      }
      AllDefaultColumns(columnIds);
    }

    /** `update_card`: sets each given field and `updated_at` through an upsert on
        the card's key; with no field given it writes nothing and returns `None`. */
    method UpdateCard(cardId: string, title: Option<string>, description: Option<string>, order: Option<int>, now: string)
      returns (r: Option<Record>)
      requires Valid()
      modifies table
      ensures Valid()
      ensures title.None? && description.None? && order.None? ==> r.None? && unchanged(table)
      ensures title.Some? || description.Some? || order.Some? ==>
                var u := PatchCard(Stored(old(table.items), Key(cardId, Card)), title, description, order, now);
                && r == Some(u)
                && table.items == old(table.items)[Key(cardId, Card) := u]
                && table.keys == if Key(cardId, Card) in old(table.items) then old(table.keys) else old(table.keys) + [Key(cardId, Card)]
    {
      if title.None? && description.None? && order.None? {
        return None;
      }
      var k := Key(cardId, Card);
      var current := table.Get(k);
      var base := if current.Some? then current.value else Record(Some(Card), None, None, None, None, None, None, None, None);
      var u := PatchCard(base, title, description, order, now);
      table.Put(k, u);
      r := Some(u);
    }

    /** `delete_card`: deletes the card's key (a missing key is no error); no
        sibling is rewritten. */
    method DeleteCard(cardId: string) returns (r: bool)
      requires Valid()
      modifies table
      ensures Valid() && r
      ensures table.items == old(table.items) - {Key(cardId, Card)}
      ensures table.keys == Without(old(table.keys), Key(cardId, Card))
    {
      table.Delete(Key(cardId, Card));
      r := true;
    }

    /** `update_board`: sets `name` and `updated_at` through an upsert on the
        board's key and returns the whole new item. */
    method UpdateBoard(boardId: string, name: string, now: string) returns (r: Option<Record>)
      requires Valid()
      modifies table
      ensures Valid()
      ensures var u := Stored(old(table.items), Key(boardId, Board)).(name := Some(name), updatedAt := Some(now));
              && r == Some(u)
              && table.items == old(table.items)[Key(boardId, Board) := u]
              && table.keys == if Key(boardId, Board) in old(table.items) then old(table.keys) else old(table.keys) + [Key(boardId, Board)]
    {
      var k := Key(boardId, Board);
      var current := table.Get(k);
      var base := if current.Some? then current.value else Record(Some(Board), None, None, None, None, None, None, None, None);
      var u := base.(name := Some(name), updatedAt := Some(now));
      table.Put(k, u);
      r := Some(u);
    }

    /** `move_card`: `None` with no write when the card or the target column is
        missing; otherwise the card takes the target column and, as order, the
        number of cards `get_cards` listed there beforehand. The source column is
        not renumbered. */
    method MoveCard(cardId: string, columnId: string, now: string) returns (r: Option<Record>)
      requires Valid()
      modifies table
      ensures Valid() && table.keys == old(table.keys)
      ensures Key(cardId, Card) !in old(table.items) || Key(columnId, Column) !in old(table.items) ==> r.None? && unchanged(table)
      ensures Key(cardId, Card) in old(table.items) && Key(columnId, Column) in old(table.items) ==>
                var u := Renumbered(old(table.items)[Key(cardId, Card)], |old(GetCards(columnId))|, Some(columnId), now);
                && r == Some(u)
                && table.items == old(table.items)[Key(cardId, Card) := u]
    {
      var card := table.Get(Key(cardId, Card));
      if card.None? {
        return None;
      }
      var column := table.Get(Key(columnId, Column));
      if column.None? {
        return None;
      }
      var cardsInColumn := GetCards(columnId);
      var nextOrder := |cardsInColumn|;
      var u := Renumbered(card.value, nextOrder, Some(columnId), now);
      table.Put(Key(cardId, Card), u);
      r := Some(u);
    }

    /** `delete_column` as evidently intended: `False` and no write when the
        column is missing; otherwise each card `get_cards` lists, then the
        column, is deleted. */
    method DeleteColumn(columnId: string) returns (r: bool)
      requires Valid()
      modifies table
      ensures Valid()
      ensures r <==> Key(columnId, Column) in old(table.items)
      ensures table.items == DeleteColumnItems(old(table.items), columnId)
      ensures table.keys == Restrict(old(table.keys), table.items)
    {
      var kc := Key(columnId, Column);
      var column := table.Get(kc);
      if column.None? {
        RestrictEnumeration(table.keys, table.items);
        return false;
      }
      ghost var m0 := table.items;
      ghost var ks0 := table.keys;
      var cards := GetCards(columnId);
      CardKeysOfColumn(m0, ks0, columnId);
      table.DeleteEach(WithKind(Keys(cards), Card));
      RestrictWithout(ks0, table.items, kc);
      table.Delete(kc);
      assert table.items == DeleteColumnItems(m0, columnId);
      r := true;
    }

    /** `delete_board` as evidently intended: each column `get_columns` lists is
        deleted with its cards, then the board. */
    method DeleteBoard(boardId: string) returns (r: bool)
      requires Valid()
      modifies table
      ensures Valid() && r
      ensures table.items == ClearColumns(old(table.items), Keys(old(GetColumns(boardId)))) - {Key(boardId, Board)}
      ensures table.keys == Restrict(old(table.keys), table.items)
    {
      ghost var ks0 := table.keys;
      var columns := GetColumns(boardId);
      ColumnListComplete(table.items, table.keys, boardId);
      BoardColumnsListed(table.items, table.keys, boardId);
      DeleteColumns(Keys(columns));
      RestrictWithout(ks0, table.items, Key(boardId, Board));
      table.Delete(Key(boardId, Board));
      r := true;
    }

    /** The loop of `delete_board`: each listed column is deleted with its cards. */
    method DeleteColumns(ids: seq<string>)
      requires Valid() && NoDup(ids)
      requires forall id :: id in ids ==> Key(id, Column) in table.items
      modifies table
      ensures Valid()
      ensures table.items == ClearColumns(old(table.items), ids)
      ensures table.keys == Restrict(old(table.keys), table.items)
    {
      ghost var m0 := table.items;
      ghost var ks0 := table.keys;
      RestrictEnumeration(ks0, m0);
      assert ids[..0] == [];
      ClearNoColumns(m0);
      var i := 0;
      while i < |ids|
        invariant 0 <= i <= |ids|
        invariant Valid()
        invariant table.items == ClearColumns(m0, ids[..i])
        invariant table.keys == Restrict(ks0, table.items)
      {
        ClearColumnsStep(m0, ids, i);
        ghost var mi := table.items;
        var _ := DeleteColumn(ids[i]);
        RestrictRestrict(ks0, mi, table.items);
        i := i + 1;
      }
      assert ids[..i] == ids;
    }

    /** `move_column` as evidently intended: `None` and no write when the column
        is missing or has no `board_id`; otherwise the board's columns, as
        `get_columns` sorts them, are rotated by whole-item puts and the moved
        column's cards renumbered in query order. `new_order` is not clamped. */
    method MoveColumn(columnId: string, newOrder: int, now: string) returns (r: Option<Record>)
      requires Valid()
      modifies table
      ensures Valid() && table.keys == old(table.keys)
      ensures !Movable(old(table.items), columnId) ==> r.None? && unchanged(table)
      ensures Movable(old(table.items), columnId) ==>
                var b := BoardOf(old(table.items), columnId);
                && r == Some(Record(Some(Column), Some(b), None, None, None, None, Some(newOrder), None, None))
                && table.items == MoveColumnEffect(old(table.items), old(table.keys), columnId, newOrder, now)
    {
      var column := table.Get(Key(columnId, Column));
      if column.None? {
        return None;
      }
      var boardId := column.value.boardId;
      if !Truthy(boardId) {
        return None;
      }
      var b := boardId.value;
      var columns := GetColumns(b);
      var current := OrderKey(column.value);
      var updates := BuildUpdates(columns, columnId, current, newOrder);
      var puts := ColumnItems(ColumnPuts(updates, columns, b, now));
      RotationPuts(table.items, table.keys, columnId, newOrder, now);
      ColumnsRotatedFacts(table.items, table.keys, columnId, newOrder, now);
      table.PutEach(puts);
      var cards := GetCards(columnId);
      CardListComplete(table.items, table.keys, columnId);
      RenumberTyped(table.items, WithKind(Keys(cards), Card), 0, Some(columnId), now);
      table.Renumber(WithKind(Keys(cards), Card), 0, Some(columnId), now);
      r := Some(Record(Some(Column), Some(b), None, None, None, None, Some(newOrder), None, None));
    }

    /** `update_column` as evidently intended: sets the name, the order when one
        is given, and `updated_at` through an upsert on the column's key. */
    method UpdateColumn(columnId: string, name: string, order: Option<int>, now: string) returns (r: Option<Record>)
      requires Valid()
      modifies table
      ensures Valid()
      ensures var u := PatchColumn(Stored(old(table.items), Key(columnId, Column)), name, order, now);
              && r == Some(u)
              && table.items == old(table.items)[Key(columnId, Column) := u]
              && table.keys == if Key(columnId, Column) in old(table.items) then old(table.keys) else old(table.keys) + [Key(columnId, Column)]
    {
      var k := Key(columnId, Column);
      var current := table.Get(k);
      var base := if current.Some? then current.value else Record(Some(Column), None, None, None, None, None, None, None, None);
      var u := PatchColumn(base, name, order, now);
      table.Put(k, u);
      r := Some(u);
    }
  }
}
