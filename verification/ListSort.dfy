/**
 * List ordering and paging (src/lib/list_sort.ts): an ORDER BY that always ends with the primary key. A column value
 * is NULL or an integer standing for its place in the column's own order.
 */
module ListSort {
  import opened Sorting
  import opened Wrappers

  datatype Row = Row(id: int, cells: seq<Option<int>>)

  /** One ORDER BY item. Without `nullsLast`, PostgreSQL puts NULLs last on ASC and first on DESC. */
  datatype OrderItem =
    | ByColumn(column: nat, descending: bool, nullsLast: bool)
    | EqualsFirst(column: nat, value: int)
    | ById

  type Build = bool -> seq<OrderItem>

  /** The chosen key's columns in the asked direction, or the fallback, always followed by the primary key. */
  function ListOrder(columns: map<string, Build>, sortBy: Option<string>, descending: bool,
                     fallback: seq<OrderItem>): seq<OrderItem> {
    var asked := sortBy.Some? && |sortBy.value| > 0 && sortBy.value in columns;
    (if asked then columns[sortBy.value](descending) else fallback) + [ById]
  }

  function CellOf(r: Row, column: nat): Option<int> {
    if column < |r.cells| then r.cells[column] else None
  }

  /** Negative when `a` comes first under one item, positive when `b` does, zero when it cannot tell. */
  function CompareItem(item: OrderItem, a: Row, b: Row): int {
    match item
    case ById => a.id - b.id
    case EqualsFirst(column, value) =>
      var (ma, mb) := (CellOf(a, column) == Some(value), CellOf(b, column) == Some(value));
      if ma == mb then 0 else if ma then -1 else 1
    case ByColumn(column, descending, nullsLast) =>
      var (ca, cb) := (CellOf(a, column), CellOf(b, column));
      if ca == cb then 0
      else if ca.None? then (if descending && !nullsLast then -1 else 1)
      else if cb.None? then (if descending && !nullsLast then 1 else -1)
      else if descending then cb.value - ca.value else ca.value - cb.value
  }

  /** The first item that can tell decides. */
  function CompareRows(order: seq<OrderItem>, a: Row, b: Row): int {
    if |order| == 0 then 0
    else if CompareItem(order[0], a, b) != 0 then CompareItem(order[0], a, b)
    else CompareRows(order[1..], a, b)
  }

  predicate Before(order: seq<OrderItem>, a: Row, b: Row) {
    CompareRows(order, a, b) < 0
  }

  function RowOrder(order: seq<OrderItem>): (Row, Row) -> int {
    (a: Row, b: Row) => CompareRows(order, a, b)
  }

  ghost predicate UniqueIds(rows: seq<Row>) {
    forall i, j :: 0 <= i < j < |rows| ==> rows[i].id != rows[j].id
  }

  lemma {:induction false} CompareRowsOpposite(order: seq<OrderItem>, a: Row, b: Row)
    ensures CompareRows(order, a, b) < 0 <==> CompareRows(order, b, a) > 0
  {
    if |order| > 0 {
      CompareRowsOpposite(order[1..], a, b);
    }
  }

  lemma {:induction false} CompareRowsChains(order: seq<OrderItem>, a: Row, b: Row, c: Row)
    requires CompareRows(order, a, b) <= 0 && CompareRows(order, b, c) <= 0
    ensures CompareRows(order, a, c) <= 0
  {
    if |order| > 0 {
      if CompareItem(order[0], a, b) == 0 && CompareItem(order[0], b, c) == 0 {
        CompareRowsChains(order[1..], a, b, c);
      }
    }
  }

  lemma RowOrderIsPreorder(order: seq<OrderItem>)
    ensures TotalPreorder(RowOrder(order))
  {
    var cmp := RowOrder(order);
    forall a, b ensures Opposite(cmp, a, b) {
      CompareRowsOpposite(order, a, b);
      CompareRowsOpposite(order, b, a);
    }
    forall a, b, c ensures Chains(cmp, a, b, c) {
      if cmp(a, b) <= 0 && cmp(b, c) <= 0 {
        CompareRowsChains(order, a, b, c);
      }
    }
  }

  lemma {:induction false} IdDecides(head: seq<OrderItem>, a: Row, b: Row)
    requires a.id != b.id
    ensures CompareRows(head + [ById], a, b) != 0
  {
    var order := head + [ById];
    if |head| > 0 {
      IdDecides(head[1..], a, b);
      assert order[1..] == head[1..] + [ById];
    }
  }

  /** For any columns, direction and fallback the ORDER BY is a strict total order on rows with different ids. */
  lemma ListOrderIsStrictTotal(columns: map<string, Build>, sortBy: Option<string>, descending: bool,
                               fallback: seq<OrderItem>, a: Row, b: Row, c: Row)
    ensures var o := ListOrder(columns, sortBy, descending, fallback);
            && !Before(o, a, a)
            && (a.id != b.id ==> (Before(o, a, b) <==> !Before(o, b, a)))
            && (Before(o, a, b) && Before(o, b, c) ==> Before(o, a, c))
  {
    var o := ListOrder(columns, sortBy, descending, fallback);
    CompareRowsOpposite(o, a, a);
    CompareRowsOpposite(o, a, b);
    CompareRowsOpposite(o, b, a);
    if a.id != b.id {
      IdDecides(o[..|o| - 1], a, b);
      assert o == o[..|o| - 1] + [ById];
    }
    if Before(o, a, b) && Before(o, b, c) {
      CompareRowsChains(o, a, b, c);
      if CompareRows(o, a, c) == 0 {
        CompareRowsOpposite(o, a, c);
        CompareRowsOpposite(o, c, a);
        CompareRowsChains(o, b, c, a);
      }
    }
  }

  // ---- What an order says about two rows. ----

  /** The first item that tells two rows apart decides. */
  lemma {:induction false} FirstTellingDecides(front: seq<OrderItem>, item: OrderItem, rest: seq<OrderItem>, a: Row,
                                               b: Row)
    requires forall tie :: tie in front ==> CompareItem(tie, a, b) == 0
    requires CompareItem(item, a, b) != 0
    ensures Before(front + [item] + rest, a, b) <==> CompareItem(item, a, b) < 0
  {
    var order := front + [item] + rest;
    if |front| > 0 {
      FirstTellingDecides(front[1..], item, rest, a, b);
      assert order[1..] == front[1..] + [item] + rest;
    }
  }

  lemma ItemThenId(item: OrderItem, a: Row, b: Row)
    ensures CompareRows([item, ById], a, b) ==
              if CompareItem(item, a, b) != 0 then CompareItem(item, a, b) else a.id - b.id
  {
    assert [item, ById][1..] == [ById] && [ById][1..] == [];
    assert CompareRows([ById], a, b) == if a.id - b.id != 0 then a.id - b.id else CompareRows([], a, b);
  }

  ghost predicate HasCell(r: Row, column: nat, value: int) {
    column < |r.cells| && r.cells[column] == Some(value)
  }

  ghost predicate NoCell(r: Row, column: nat) {
    column >= |r.cells| || r.cells[column] == None
  }

  /**
   * Asked for a key that orders by one column: ascending puts the smaller value first and descending the larger; equal
   * values leave it to the id, the smaller one first.
   */
  lemma AskedColumnDecides(columns: map<string, Build>, key: string, descending: bool, fallback: seq<OrderItem>,
                           column: nat, nullsLast: bool, a: Row, b: Row, x: int, y: int)
    requires key != "" && key in columns && columns[key](descending) == [ByColumn(column, descending, nullsLast)]
    requires HasCell(a, column, x) && HasCell(b, column, y)
    ensures Before(ListOrder(columns, Some(key), descending, fallback), a, b) <==>
              if x == y then a.id < b.id else if descending then x > y else x < y
  {
    var order := ListOrder(columns, Some(key), descending, fallback);
    assert order == [ByColumn(column, descending, nullsLast), ById];
    ItemThenId(ByColumn(column, descending, nullsLast), a, b);
  }

  /** A missing value comes last, except on a descending column without NULLS LAST, where it comes first. */
  lemma AskedColumnMissing(columns: map<string, Build>, key: string, descending: bool, fallback: seq<OrderItem>,
                           column: nat, nullsLast: bool, a: Row, b: Row, x: int)
    requires key != "" && key in columns && columns[key](descending) == [ByColumn(column, descending, nullsLast)]
    requires HasCell(a, column, x) && NoCell(b, column)
    ensures var order := ListOrder(columns, Some(key), descending, fallback);
            && (Before(order, a, b) <==> !descending || nullsLast)
            && (Before(order, b, a) <==> descending && !nullsLast)
  {
    assert ListOrder(columns, Some(key), descending, fallback) == [ByColumn(column, descending, nullsLast), ById];
    ItemThenId(ByColumn(column, descending, nullsLast), a, b);
    ItemThenId(ByColumn(column, descending, nullsLast), b, a);
  }

  /** Without a key that is known, the fallback decides, whatever the direction. */
  lemma UnknownKeyFallsBack(columns: map<string, Build>, sortBy: Option<string>, descending: bool, column: nat,
                            down: bool, nullsLast: bool, a: Row, b: Row, x: int, y: int)
    requires sortBy.None? || sortBy.value == "" || sortBy.value !in columns
    requires HasCell(a, column, x) && HasCell(b, column, y)
    ensures Before(ListOrder(columns, sortBy, descending, [ByColumn(column, down, nullsLast)]), a, b) <==>
              if x == y then a.id < b.id else if down then x > y else x < y
  {
    var order := ListOrder(columns, sortBy, descending, [ByColumn(column, down, nullsLast)]);
    assert order == [ByColumn(column, down, nullsLast), ById];
    ItemThenId(ByColumn(column, down, nullsLast), a, b);
  }

  /** An exact match comes before everything else, whatever follows in the order. */
  lemma ExactMatchFirst(column: nat, value: int, rest: seq<OrderItem>, a: Row, b: Row)
    requires HasCell(a, column, value) && !HasCell(b, column, value)
    ensures Before([EqualsFirst(column, value)] + rest, a, b) && !Before([EqualsFirst(column, value)] + rest, b, a)
  {
  }

  /** With `nullsLast`, a row without a value never comes before one with a value, in either direction. */
  lemma NullsComeLast(column: nat, descending: bool, rest: seq<OrderItem>, a: Row, b: Row)
    requires CellOf(a, column).None? && CellOf(b, column).Some?
    ensures Before([ByColumn(column, descending, true)] + rest, b, a)
    ensures !Before([ByColumn(column, descending, true)] + rest, a, b)
  {
  }

  // ---- Sorting gives one sequence. ----

  ghost predicate SortedBy(order: seq<OrderItem>, rows: seq<Row>) {
    StrictlyOrdered(rows, RowOrder(order))
  }

  /** What a correct answer to the query is: the table's rows, each once, in the asked order. */
  ghost predicate CorrectSort(order: seq<OrderItem>, table: set<Row>, rows: seq<Row>) {
    SortedBy(order, rows) && (forall r :: r in rows <==> r in table)
  }

  /** Any two correct sorts of the same rows are the same sequence. */
  lemma SortsAgree(order: seq<OrderItem>, a: seq<Row>, b: seq<Row>)
    requires SortedBy(order, a) && SortedBy(order, b)
    requires forall r :: r in a <==> r in b
    ensures a == b
  {
    RowOrderIsPreorder(order);
    StrictUnique(a, b, RowOrder(order));
  }

  // ---- Pages. ----

  function Min(a: nat, b: nat): nat {
    if a < b then a else b
  }

  /** LIMIT / OFFSET */
  function Page(rows: seq<Row>, limit: nat, offset: nat): seq<Row> {
    if offset >= |rows| then [] else rows[offset..Min(offset + limit, |rows|)]
  }

  /** The first `count` pages, page `k` cut from the sort its own request made. */
  function Pages(sorts: seq<seq<Row>>, limit: nat, count: nat): seq<Row>
    requires count <= |sorts|
  {
    if count == 0 then [] else Pages(sorts, limit, count - 1) + Page(sorts[count - 1], limit, (count - 1) * limit)
  }

  lemma PageExtends(all: seq<Row>, limit: nat, from: nat)
    ensures all[..Min(from, |all|)] + Page(all, limit, from) == all[..Min(from + limit, |all|)]
  {
  }

  lemma {:induction false} PagesArePrefix(sorts: seq<seq<Row>>, limit: nat, count: nat, all: seq<Row>)
    requires count <= |sorts| && forall k :: 0 <= k < |sorts| ==> sorts[k] == all
    ensures Pages(sorts, limit, count) == all[..Min(count * limit, |all|)]
  {
    if count > 0 {
      PagesArePrefix(sorts, limit, count - 1, all);
      PageExtends(all, limit, (count - 1) * limit);
    }
  }

  /**
   * Requests for consecutive pages of an unchanged table, each sorted afresh by any correct sort, together return
   * the rows in order without a gap or a repeat; once `count * limit` covers the table, every row exactly once.
   */
  lemma PagesNeitherSkipNorRepeat(columns: map<string, Build>, sortBy: Option<string>, descending: bool,
                                  fallback: seq<OrderItem>, table: set<Row>, sorts: seq<seq<Row>>,
                                  limit: nat, count: nat)
    requires 0 < count <= |sorts|
    requires forall k :: 0 <= k < |sorts| ==>
               CorrectSort(ListOrder(columns, sortBy, descending, fallback), table, sorts[k])
    ensures var o := ListOrder(columns, sortBy, descending, fallback);
            var shown := Pages(sorts, limit, count);
            && SortedBy(o, shown)
            && (forall i, j :: 0 <= i < j < |shown| ==> shown[i] != shown[j])
            && shown == sorts[0][..Min(count * limit, |sorts[0]|)]
            && (count * limit >= |sorts[0]| ==> forall r :: r in shown <==> r in table)
  {
    var o := ListOrder(columns, sortBy, descending, fallback);
    forall k | 0 <= k < |sorts| ensures sorts[k] == sorts[0] {
      SortsAgree(o, sorts[k], sorts[0]);
    }
    PagesArePrefix(sorts, limit, count, sorts[0]);
    var shown := Pages(sorts, limit, count);
    forall i, j | 0 <= i < j < |shown| ensures shown[i] != shown[j] {
      CompareRowsOpposite(o, shown[i], shown[i]);
      assert RowOrder(o)(shown[i], shown[j]) < 0;
    }
    if count * limit >= |sorts[0]| {
      assert shown == sorts[0];
    }
  }

  /** Every table with unique ids has a correct answer, so the results above are not about nothing. */
  lemma SortIsCorrect(head: seq<OrderItem>, rows: seq<Row>)
    requires UniqueIds(rows)
    ensures CorrectSort(head + [ById], (set r | r in rows), Sort(rows, RowOrder(head + [ById])))
  {
    var cmp := RowOrder(head + [ById]);
    RowOrderIsPreorder(head + [ById]);
    forall a, b | a in rows && b in rows && cmp(a, b) == 0 ensures a == b {
      if a.id != b.id {
        IdDecides(head, a, b);
      }
    }
    SortStrictly(rows, cmp);
  }
}
