/** The record codec: the typed items that boards, columns and cards become in the
    single DynamoDB table, and the sort keys the adapters use on them. */
module Records {

  datatype Option<T> = None | Some(value: T) {
    /** Python's `d.get(key, default)`. */
    function GetOr(default: T): T {
      if Some? then value else default
    }
  }

  /** The `type` attribute. `Other` is any other string a caller passes as a type. */
  datatype Kind = Board | Column | Card | Other(name: string)

  /** One item of the table, without its key; a field is `None` when the item lacks
      that attribute (DynamoDB items are schema-less dictionaries). */
  datatype Record = Record(
    kind: Option<Kind>,
    boardId: Option<string>,
    columnId: Option<string>,
    name: Option<string>,
    title: Option<string>,
    description: Option<string>,
    order: Option<int>,
    createdAt: Option<string>,
    updatedAt: Option<string>)

  /** An item as a query returns it: its key and its attributes. */
  datatype Item<K> = Item(key: K, rec: Record)

  function Keys<K>(s: seq<Item<K>>): (r: seq<K>)
    ensures |r| == |s|
    ensures forall i :: 0 <= i < |s| ==> r[i] == s[i].key
  {
    seq(|s|, i requires 0 <= i < |s| => s[i].key)
  }

  lemma KeysAppend<K>(a: seq<Item<K>>, b: seq<Item<K>>)
    ensures Keys(a + b) == Keys(a) + Keys(b)
  {
  }

  /** Names and orders of the columns both adapters give a new board. */
  const DefaultColumns: seq<(string, int)> := [("Por Hacer", 0), ("En Progreso", 1), ("Completado", 2)]

  function BoardRecord(kind: Kind, name: string, now: string): Record {
    Record(Some(kind), None, None, Some(name), None, None, None, Some(now), Some(now))
  }

  function ColumnRecord(boardId: string, name: string, order: Option<int>, now: string): Record {
    Record(Some(Column), Some(boardId), None, Some(name), None, None, order, Some(now), Some(now))
  }

  function CardRecord(columnId: string, title: string, description: string, order: Option<int>, now: string): Record {
    Record(Some(Card), None, Some(columnId), None, Some(title), Some(description), order, Some(now), Some(now))
  }

  /** Python truthiness of an optional string attribute: `None` and `""` are false. */
  predicate Truthy(s: Option<string>) {
    s.Some? && s.value != ""
  }

  /** `x.get('order', 0)`: the sort key of the order-sorted views. */
  function OrderKey(r: Record): int {
    r.order.GetOr(0)
  }

  /** `x.get('created_at', '')`: the sort key of the repair pass. */
  function CreatedKey(r: Record): string {
    r.createdAt.GetOr("")
  }

  /** Python's `<` on strings: lexicographic by code point. */
  predicate StrLess(a: string, b: string)
    decreases |a|
  {
    if a == [] then b != []
    else if b == [] then false
    else if a[0] != b[0] then a[0] < b[0]
    else StrLess(a[1..], b[1..])
  }

  lemma {:induction false} StrLessIrreflexive(a: string)
    ensures !StrLess(a, a)
    decreases |a|
  {
    if a != [] {
      StrLessIrreflexive(a[1..]);
    }
  }

  lemma {:induction false} StrLessTransitive(a: string, b: string, c: string)
    requires StrLess(a, b) && StrLess(b, c)
    ensures StrLess(a, c)
    decreases |a|
  {
    if a != [] && b != [] && c != [] && a[0] == b[0] && b[0] == c[0] {
      StrLessTransitive(a[1..], b[1..], c[1..]);
    }
  }
}
