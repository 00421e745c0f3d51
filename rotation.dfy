/** The column rotation both adapters' `move_column` perform: the `updates` list
    built over a board's columns, and the batch of whole-item puts that writes it.
    Generic in the table key, so that the id-keyed and the (id, type)-keyed
    tables share it. */
module Rotation {
  import opened Records
  import opened Sequences
  import opened Ordering
  import opened Tables

  /** One entry of the `updates` list: a column's key and its new order. */
  datatype Update<K> = Update(id: K, order: int)

  function Ids<K(==)>(us: seq<Update<K>>): (r: seq<K>)
    ensures |r| == |us| && forall j :: 0 <= j < |us| ==> r[j] == us[j].id
  {
    seq(|us|, j requires 0 <= j < |us| => us[j].id)
  }

  /** The `order` of each listed column as `col.get('order', 0)` reads it. */
  function OrderKeysOf<K(==)>(cols: seq<Item<K>>): (r: seq<int>)
    ensures |r| == |cols| && forall i :: 0 <= i < |cols| ==> r[i] == OrderKey(cols[i].rec)
  {
    seq(|cols|, i requires 0 <= i < |cols| => OrderKey(cols[i].rec))
  }

  /** Removing the entry at `p` removes its order and keeps the others in place. */
  lemma OrderKeysSplice<K>(cols: seq<Item<K>>, p: nat)
    requires p < |cols|
    ensures OrderKeysOf(cols[..p] + cols[p + 1..]) == OrderKeysOf(cols)[..p] + OrderKeysOf(cols)[p + 1..]
  {
    var os := OrderKeysOf(cols);
    var rest := cols[..p] + cols[p + 1..];
    forall i | 0 <= i < |rest|
      ensures OrderKeysOf(rest)[i] == (os[..p] + os[p + 1..])[i]
    {
      if i >= p {
        assert rest[i] == cols[i + 1];
      }
    }
  }

  /** The new order `move_column` gives one listed column, or `None` when the
      column is not in the `updates` list. */
  function NewOrder<K(==)>(c: Item<K>, moved: K, current: int, target: int): (r: Option<int>)
    ensures c.key == moved ==> r == Some(target)
    ensures c.key != moved ==> r == Shifted(OrderKey(c.rec), current, target)
  {
    if c.key == moved then Some(target) else Shifted(OrderKey(c.rec), current, target)
  }

  /** The `updates` list, one entry per column that changes, in list order. */
  function ColumnUpdates<K(==)>(cols: seq<Item<K>>, moved: K, current: int, target: int): (us: seq<Update<K>>)
    ensures |us| <= |cols|
  {
    if cols == [] then []
    else
      var front := ColumnUpdates(cols[..|cols| - 1], moved, current, target);
      var c := cols[|cols| - 1];
      match NewOrder(c, moved, current, target)
      case Some(o) => front + [Update(c.key, o)]
      case None => front
  }

  lemma {:induction false} UpdatesListed<K>(cols: seq<Item<K>>, moved: K, current: int, target: int, j: nat)
    requires j < |ColumnUpdates(cols, moved, current, target)|
    ensures ColumnUpdates(cols, moved, current, target)[j].id in Keys(cols)
    decreases |cols|
  {
    var front := cols[..|cols| - 1];
    var uf := ColumnUpdates(front, moved, current, target);
    assert Keys(front) == Keys(cols)[..|cols| - 1];
    if j < |uf| {
      UpdatesListed(front, moved, current, target, j);
    } else {
      assert Keys(cols)[|cols| - 1] == cols[|cols| - 1].key;
    }
  }

  /** The loop of `move_column` that builds the `updates` list. */
  method BuildUpdates<K(==)>(cols: seq<Item<K>>, moved: K, current: int, target: int) returns (us: seq<Update<K>>)
    ensures us == ColumnUpdates(cols, moved, current, target)
  {
    us := [];
    var i := 0;
    while i < |cols|
      invariant 0 <= i <= |cols|
      invariant us == ColumnUpdates(cols[..i], moved, current, target)
    {
      var col := cols[i];
      var colOrder := OrderKey(col.rec);
      assert cols[..i + 1][..i] == cols[..i];
      if col.key == moved {
        us := us + [Update(col.key, target)];
      } else if current < target {
        if current < colOrder <= target {
          us := us + [Update(col.key, colOrder - 1)];
        }
      } else {
        if target <= colOrder < current {
          us := us + [Update(col.key, colOrder + 1)];
        }
      }
      i := i + 1;
    }
    assert cols[..i] == cols;
  }

  /** `next((col['name'] for col in columns if col['id'] == id), '')`. */
  function FirstName<K(==)>(cols: seq<Item<K>>, id: K): Option<string> {
    if cols == [] then Some("")
    else if cols[0].key == id then cols[0].rec.name
    else FirstName(cols[1..], id)
  }

  lemma {:induction false} FirstNameOfListed<K>(cols: seq<Item<K>>, i: nat)
    requires NoDup(Keys(cols)) && i < |cols|
    ensures FirstName(cols, cols[i].key) == cols[i].rec.name
  {
    if i > 0 {
      assert Keys(cols)[0] != Keys(cols)[i];
      assert Keys(cols[1..]) == Keys(cols)[1..];
      FirstNameOfListed(cols[1..], i - 1);
    }
  }

  /** The whole item a rotation put writes: only the id, type, order, updated_at,
      board_id and name survive; `created_at` is dropped. */
  function RewrittenColumn(boardId: string, name: Option<string>, order: int, now: string): Record {
    Record(Some(Column), Some(boardId), None, name, None, None, Some(order), None, Some(now))
  }

  function ColumnPuts<K(==)>(us: seq<Update<K>>, cols: seq<Item<K>>, boardId: string, now: string): (ps: seq<Item<K>>)
    ensures |ps| == |us|
    ensures forall j :: 0 <= j < |us| ==> ps[j] == Item(us[j].id, RewrittenColumn(boardId, FirstName(cols, us[j].id), us[j].order, now))
  {
    seq(|us|, j requires 0 <= j < |us| => Item(us[j].id, RewrittenColumn(boardId, FirstName(cols, us[j].id), us[j].order, now)))
  }

  /** The records after the batch of rotation puts. */
  function RotateColumns<K(==)>(m: map<K, Record>, cols: seq<Item<K>>, moved: K, current: int, target: int,
                            boardId: string, now: string): map<K, Record>
  {
    PutAll(m, ColumnPuts(ColumnUpdates(cols, moved, current, target), cols, boardId, now))
  }

  /** The record a listed column holds after the puts. */
  function RotatedRecord<K(==)>(m: map<K, Record>, c: Item<K>, moved: K, current: int, target: int,
                                boardId: string, now: string): Record
    requires c.key in m
  {
    match NewOrder(c, moved, current, target)
    case Some(o) => RewrittenColumn(boardId, c.rec.name, o, now)
    case None => m[c.key]
  }

  /** One more column of the list adds at most one put, for that column. */
  lemma RotateStep<K>(m: map<K, Record>, all: seq<Item<K>>, n: nat, moved: K, current: int,
                      target: int, boardId: string, now: string)
    requires 0 < n <= |all| && NoDup(Keys(all))
    requires all[n - 1].key in m
    ensures var mf := PutAll(m, ColumnPuts(ColumnUpdates(all[..n - 1], moved, current, target), all, boardId, now));
            var m1 := PutAll(m, ColumnPuts(ColumnUpdates(all[..n], moved, current, target), all, boardId, now));
            var c := all[n - 1];
            c.key in mf && m1 == mf[c.key := RotatedRecord(mf, c, moved, current, target, boardId, now)]
  {
    var c := all[n - 1];
    assert all[..n][..n - 1] == all[..n - 1];
    var uf := ColumnUpdates(all[..n - 1], moved, current, target);
    var us := ColumnUpdates(all[..n], moved, current, target);
    var pf := ColumnPuts(uf, all, boardId, now);
    var ps := ColumnPuts(us, all, boardId, now);
    FirstNameOfListed(all, n - 1);
    match NewOrder(c, moved, current, target)
    case None => {
      assert us == uf;
    }
    case Some(o) => {
      assert us == uf + [Update(c.key, o)];
      assert ps == pf + [Item(c.key, RewrittenColumn(boardId, c.rec.name, o, now))];
      assert ps[..|ps| - 1] == pf;
    }
  }

  /** The state after the puts for the first `n` listed columns. */
  ghost predicate RotatedUpTo<K>(m: map<K, Record>, m1: map<K, Record>, all: seq<Item<K>>, n: nat, moved: K,
                                 current: int, target: int, boardId: string, now: string)
    requires n <= |all|
    requires forall i :: 0 <= i < |all| ==> all[i].key in m
  {
    && m1.Keys == m.Keys
    && (forall k :: k in m && k !in Keys(all)[..n] ==> m1[k] == m[k])
    && (forall i :: 0 <= i < n ==> m1[all[i].key] == RotatedRecord(m, all[i], moved, current, target, boardId, now))
  }

  lemma RotatedUpToStep<K>(m: map<K, Record>, mf: map<K, Record>, m1: map<K, Record>, all: seq<Item<K>>, n: nat,
                           moved: K, current: int, target: int, boardId: string, now: string)
    requires 0 < n <= |all| && NoDup(Keys(all))
    requires forall i :: 0 <= i < |all| ==> all[i].key in m
    requires RotatedUpTo(m, mf, all, n - 1, moved, current, target, boardId, now)
    requires all[n - 1].key in mf
    requires m1 == mf[all[n - 1].key := RotatedRecord(mf, all[n - 1], moved, current, target, boardId, now)]
    ensures RotatedUpTo(m, m1, all, n, moved, current, target, boardId, now)
  {
    var c := all[n - 1];
    assert c.key !in Keys(all)[..n - 1] by {
      forall j | 0 <= j < n - 1 ensures Keys(all)[j] != c.key {
        assert Keys(all)[j] != Keys(all)[n - 1];
      }
    }
    assert Keys(all)[..n] == Keys(all)[..n - 1] + [c.key];
    forall i | 0 <= i < n ensures m1[all[i].key] == RotatedRecord(m, all[i], moved, current, target, boardId, now) {
      if i < n - 1 {
        assert Keys(all)[i] != Keys(all)[n - 1];
      }
    }
  }

  /** What the puts leave under each key, proved over growing prefixes of the list:
      a listed column the updates name holds its rewritten item, every other key
      keeps its record. */
  lemma {:induction false} RotatePrefix<K>(m: map<K, Record>, all: seq<Item<K>>, n: nat, moved: K, current: int,
                                          target: int, boardId: string, now: string)
    requires n <= |all| && NoDup(Keys(all))
    requires forall i :: 0 <= i < |all| ==> all[i].key in m
    ensures RotatedUpTo(m, PutAll(m, ColumnPuts(ColumnUpdates(all[..n], moved, current, target), all, boardId, now)),
                        all, n, moved, current, target, boardId, now)
  {
    if n == 0 {
      assert all[..n] == [];
      assert ColumnUpdates(all[..n], moved, current, target) == [];
      assert ColumnPuts([], all, boardId, now) == [];
    } else {
      RotatePrefix(m, all, n - 1, moved, current, target, boardId, now);
      RotateStep(m, all, n, moved, current, target, boardId, now);
      var mf := PutAll(m, ColumnPuts(ColumnUpdates(all[..n - 1], moved, current, target), all, boardId, now));
      var m1 := PutAll(m, ColumnPuts(ColumnUpdates(all[..n], moved, current, target), all, boardId, now));
      RotatedUpToStep(m, mf, m1, all, n, moved, current, target, boardId, now);
    }
  }

  /** The puts of a rotation over a duplicate-free column list: each listed column
      holds its rotated record, nothing else changes and no key is added. */
  lemma RotateColumnsValue<K>(m: map<K, Record>, cols: seq<Item<K>>, moved: K, current: int, target: int,
                              boardId: string, now: string)
    requires NoDup(Keys(cols))
    requires forall i :: 0 <= i < |cols| ==> cols[i].key in m
    ensures var m1 := RotateColumns(m, cols, moved, current, target, boardId, now);
            && m1.Keys == m.Keys
            && (forall k :: k in m && k !in Keys(cols) ==> m1[k] == m[k])
            && (forall i :: 0 <= i < |cols| ==> m1[cols[i].key] == RotatedRecord(m, cols[i], moved, current, target, boardId, now))
  {
    assert cols[..|cols|] == cols;
    assert Keys(cols)[..|cols|] == Keys(cols);
    RotatePrefix(m, cols, |cols|, moved, current, target, boardId, now);
  }

  /** A listed column's rotated record keeps its name, its board and its type,
      and its order is the one `Rotate` gives its position. */
  lemma RotatedRecordAt<K>(m: map<K, Record>, cols: seq<Item<K>>, p: nat, target: int, boardId: string, now: string, i: nat)
    requires NoDup(Keys(cols)) && p < |cols| && i < |cols|
    requires cols[i].key in m && m[cols[i].key] == cols[i].rec
    requires cols[i].rec.kind == Some(Column) && cols[i].rec.boardId == Some(boardId)
    ensures var r := RotatedRecord(m, cols[i], cols[p].key, OrderKey(cols[p].rec), target, boardId, now);
            && r.kind == Some(Column)
            && r.boardId == Some(boardId)
            && r.name == cols[i].rec.name
            && OrderKey(r) == Rotate(OrderKeysOf(cols), p, target)[i]
  {
    if i != p {
      assert Keys(cols)[i] != Keys(cols)[p];
    }
  }
}
