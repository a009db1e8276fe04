/**
 * The columns slice of the store (src/store/features/column/columnSlice.ts).
 * Each reducer is a function from the column list to the new column list;
 * `ColumnState` holds the list and applies the reducers in place.
 */
module ColumnSlice {
  import opened Wrappers
  import opened Seqs
  import opened KanbanTypes

  /** The store invariant "a card id appears at most once in a column". */
  ghost predicate CardIdsDistinct(cols: seq<Column>) {
    forall c :: c in cols ==> Distinct(c.cardIds)
  }

  /** The record `createColumn` builds: a fresh id, no cards, both timestamps `now`. */
  function NewColumn(freshId: string, title: string, boardId: string, now: string): Column {
    Column(freshId, title, boardId, now, now, [])
  }

  /** `Object.assign(column, changes)` as a function of the column. */
  function Assign(changes: ColumnChanges): Column -> Column {
    c => AssignColumn(c, changes)
  }

  /** `updateColumn`: the first column with `id` takes the changes; all others are untouched. */
  function UpdatedColumn(cols: seq<Column>, id: string, changes: ColumnChanges): (r: seq<Column>)
    ensures |r| == |cols|
    ensures FirstIndex(cols, ColumnKey, id).None? ==> r == cols
    ensures FirstIndex(cols, ColumnKey, id).Some? ==>
      var i := FirstIndex(cols, ColumnKey, id).value;
      r[i] == AssignColumn(cols[i], changes) && forall j :: 0 <= j < |cols| && j != i ==> r[j] == cols[j]
    ensures forall j :: 0 <= j < |r| ==> r[j].id == cols[j].id
  {
    UpdateFirst(cols, ColumnKey, id, Assign(changes))
  }

  /** The predicate `col => col.id !== columnId`. */
  function OtherColumn(columnId: string): Column -> bool {
    (c: Column) => c.id != columnId
  }

  /** `deleteColumn`: exactly the columns with `columnId` go; every other column stays, as often as before. */
  function WithoutColumn(cols: seq<Column>, columnId: string): (r: seq<Column>)
    ensures forall c :: c in r <==> c in cols && c.id != columnId
    ensures forall c: Column :: c.id != columnId ==> multiset(r)[c] == multiset(cols)[c]
    ensures (forall c :: c in cols ==> c.id != columnId) ==> r == cols
  {
    var keep := OtherColumn(columnId);
    FilterCount(cols, keep);
    if forall c :: c in cols ==> keep(c) then FilterKeepsAll(cols, keep); Filter(cols, keep)
    else Filter(cols, keep)
  }

  /**
   * `deleteColumn` keeps the surviving columns in their order: it distributes over
   * concatenation, drops a lone column with `columnId` and keeps any other.
   */
  lemma WithoutColumnKeepsOrder(a: seq<Column>, b: seq<Column>, columnId: string, c: Column)
    ensures WithoutColumn(a + b, columnId) == WithoutColumn(a, columnId) + WithoutColumn(b, columnId)
    ensures WithoutColumn([c], columnId) == if c.id == columnId then [] else [c]
  {
    FilterConcat(a, b, OtherColumn(columnId));
    FilterSingleton(c, OtherColumn(columnId));
  }

  /** The predicate `col => col.boardId !== boardId`. */
  function OutsideBoard(boardId: string): Column -> bool {
    (c: Column) => c.boardId != boardId
  }

  /** `deleteColumnsForBoard`: exactly the columns of `boardId` go; the others stay as they were. */
  function WithoutBoardColumns(cols: seq<Column>, boardId: string): (r: seq<Column>)
    ensures forall c :: c in r <==> c in cols && c.boardId != boardId
    ensures forall c: Column :: c.boardId != boardId ==> multiset(r)[c] == multiset(cols)[c]
    ensures CardIdsDistinct(cols) ==> CardIdsDistinct(r)
  {
    var keep := OutsideBoard(boardId);
    FilterCount(cols, keep);
    Filter(cols, keep)
  }

  /**
   * `deleteColumnsForBoard` keeps the surviving columns in their order: it distributes
   * over concatenation, drops a lone column of `boardId` and keeps any other.
   */
  lemma WithoutBoardColumnsKeepsOrder(a: seq<Column>, b: seq<Column>, boardId: string, c: Column)
    ensures WithoutBoardColumns(a + b, boardId) == WithoutBoardColumns(a, boardId) + WithoutBoardColumns(b, boardId)
    ensures WithoutBoardColumns([c], boardId) == if c.boardId == boardId then [] else [c]
  {
    FilterConcat(a, b, OutsideBoard(boardId));
    FilterSingleton(c, OutsideBoard(boardId));
  }

  function AddCardId(cardId: string): Column -> Column {
    (c: Column) => c.(cardIds := AppendIfAbsent(c.cardIds, cardId))
  }

  /**
   * `addCardIdToColumn`: the first column with `columnId` gains `cardId` at the end
   * unless it already lists it; nothing else changes, so no duplicate is ever made.
   */
  function AddedCardId(cols: seq<Column>, columnId: string, cardId: string): (r: seq<Column>)
    ensures |r| == |cols|
    ensures FirstIndex(cols, ColumnKey, columnId).None? ==> r == cols
    ensures FirstIndex(cols, ColumnKey, columnId).Some? ==>
      var i := FirstIndex(cols, ColumnKey, columnId).value;
      && cardId in r[i].cardIds
      && r[i] == cols[i].(cardIds := r[i].cardIds)
      && (cardId in cols[i].cardIds ==> r[i] == cols[i])
      && (cardId !in cols[i].cardIds ==> r[i].cardIds == cols[i].cardIds + [cardId])
      && forall j :: 0 <= j < |cols| && j != i ==> r[j] == cols[j]
    ensures CardIdsDistinct(cols) ==> CardIdsDistinct(r)
  {
    UpdateFirst(cols, ColumnKey, columnId, AddCardId(cardId))
  }

  function RemoveCardId(cardId: string): Column -> Column {
    (c: Column) => c.(cardIds := RemoveAll(c.cardIds, cardId))
  }

  /**
   * `removeCardIdFromColumn`: every occurrence of `cardId` leaves the first column
   * with `columnId`; its other ids keep their order and multiplicity.
   */
  function RemovedCardId(cols: seq<Column>, columnId: string, cardId: string): (r: seq<Column>)
    ensures |r| == |cols|
    ensures FirstIndex(cols, ColumnKey, columnId).None? ==> r == cols
    ensures FirstIndex(cols, ColumnKey, columnId).Some? ==>
      var i := FirstIndex(cols, ColumnKey, columnId).value;
      && cardId !in r[i].cardIds
      && r[i] == cols[i].(cardIds := r[i].cardIds)
      && r[i].cardIds == RemoveAll(cols[i].cardIds, cardId)
      && forall j :: 0 <= j < |cols| && j != i ==> r[j] == cols[j]
    ensures CardIdsDistinct(cols) ==> CardIdsDistinct(r)
  {
    UpdateFirst(cols, ColumnKey, columnId, RemoveCardId(cardId))
  }

  /** The predicate `id => column.cardIds.includes(id)`. */
  function Listed(current: seq<string>): string -> bool {
    x => x in current
  }

  /** The ids of `requested` that the column already lists, in the requested order. */
  function KnownIds(requested: seq<string>, current: seq<string>): (r: seq<string>)
    ensures forall x :: x in r <==> x in requested && x in current
    ensures Distinct(requested) ==> Distinct(r)
  {
    FilterCount(requested, Listed(current));
    Filter(requested, Listed(current))
  }

  /**
   * The kept ids stay in the requested order: `KnownIds` distributes over
   * concatenation of the request, keeps a lone listed id and drops a lone unknown one.
   */
  lemma KnownIdsKeepsOrder(a: seq<string>, b: seq<string>, current: seq<string>, x: string)
    ensures KnownIds(a + b, current) == KnownIds(a, current) + KnownIds(b, current)
    ensures KnownIds([x], current) == if x in current then [x] else []
  {
    FilterConcat(a, b, Listed(current));
    FilterSingleton(x, Listed(current));
  }

  function Reorder(cardIds: seq<string>): Column -> Column {
    (c: Column) => var valid := KnownIds(cardIds, c.cardIds);
         if |valid| == |c.cardIds| then c.(cardIds := valid) else c
  }

  /**
   * `reorderColumnCards`: the first column with `columnId` takes the requested ids it
   * already lists, but only when there are as many of them as it had ids; otherwise
   * it is unchanged. Either way it never gains an id it did not list before.
   */
  function Reordered(cols: seq<Column>, columnId: string, cardIds: seq<string>): (r: seq<Column>)
    ensures |r| == |cols|
    ensures FirstIndex(cols, ColumnKey, columnId).None? ==> r == cols
    ensures FirstIndex(cols, ColumnKey, columnId).Some? ==>
      var i := FirstIndex(cols, ColumnKey, columnId).value;
      var valid := KnownIds(cardIds, cols[i].cardIds);
      && r[i] == cols[i].(cardIds := r[i].cardIds)
      && (forall x :: x in r[i].cardIds ==> x in cols[i].cardIds)
      && |r[i].cardIds| == |cols[i].cardIds|
      && r[i].cardIds == (if |valid| == |cols[i].cardIds| then valid else cols[i].cardIds)
      && forall j :: 0 <= j < |cols| && j != i ==> r[j] == cols[j]
  {
    UpdateFirst(cols, ColumnKey, columnId, Reorder(cardIds))
  }

  /** `columns.find(col => col.id === columnId)?.cardIds || []`: the ids a column lists, none for an unknown column. */
  function CardIdsIn(cols: seq<Column>, columnId: string): (r: seq<string>)
    ensures FirstIndex(cols, ColumnKey, columnId).Some? ==> r == cols[FirstIndex(cols, ColumnKey, columnId).value].cardIds
    ensures FirstIndex(cols, ColumnKey, columnId).None? ==> r == []
  {
    match Find(cols, ColumnKey, columnId)
    case Some(c) => c.cardIds
    case None => []
  }

  /**
   * Updating the first column with `columnId` by an `f` that keeps ids changes what
   * that column lists to what `f` makes of it, and what every other column lists not at all.
   */
  lemma CardIdsInAfterUpdate(cols: seq<Column>, columnId: string, f: Column -> Column, other: string)
    requires forall c :: f(c).id == c.id
    ensures var r := UpdateFirst(cols, ColumnKey, columnId, f);
      CardIdsIn(r, other) ==
        if other == columnId && FirstIndex(cols, ColumnKey, columnId).Some?
        then f(cols[FirstIndex(cols, ColumnKey, columnId).value]).cardIds
        else CardIdsIn(cols, other)
  {
    UpdateFirstKeepsIndex(cols, ColumnKey, columnId, f, other);
  }

  /** Adding the same card id twice is the same as adding it once. */
  lemma AddedCardIdIdempotent(cols: seq<Column>, columnId: string, cardId: string)
    ensures AddedCardId(AddedCardId(cols, columnId, cardId), columnId, cardId) == AddedCardId(cols, columnId, cardId)
  {
    UpdateFirstKeepsIndex(cols, ColumnKey, columnId, AddCardId(cardId), columnId);
  }

  /** A request that is a permutation of the column's ids is accepted as it stands. */
  lemma ReorderedPermutation(cols: seq<Column>, columnId: string, cardIds: seq<string>)
    requires FirstIndex(cols, ColumnKey, columnId).Some?
    requires multiset(cardIds) == multiset(cols[FirstIndex(cols, ColumnKey, columnId).value].cardIds)
    ensures Reordered(cols, columnId, cardIds)[FirstIndex(cols, ColumnKey, columnId).value].cardIds == cardIds
  {
    var i := FirstIndex(cols, ColumnKey, columnId).value;
    var current := cols[i].cardIds;
    assert |cardIds| == |multiset(cardIds)| == |current|;
    forall x | x in cardIds ensures x in current {
      assert x in multiset(cardIds);
    }
    FilterKeepsAll(cardIds, Listed(current));
  }

  /**
   * The length check does not make the request a permutation: asking a column
   * holding ["a", "b"] for ["a", "a"] is accepted, duplicates "a" and drops "b".
   */
  lemma ReorderedAcceptsDuplicates(col: Column)
    requires col.cardIds == ["a", "b"]
    ensures Reordered([col], col.id, ["a", "a"]) == [col.(cardIds := ["a", "a"])]
    ensures !CardIdsDistinct(Reordered([col], col.id, ["a", "a"]))
  {
    var r := Reordered([col], col.id, ["a", "a"]);
    assert FirstIndex([col], ColumnKey, col.id) == Some(0);
    var valid := KnownIds(["a", "a"], col.cardIds);
    assert valid == ["a", "a"];
    assert r[0].cardIds == ["a", "a"];
    assert multiset(r[0].cardIds)["a"] == 2;
  }

  /** The column list of the store, changed in place by the reducers. */
  class ColumnState {
    var columns: seq<Column>

    constructor (initial: seq<Column>)
      ensures columns == initial
    {
      columns := initial;
    }

    /** `createColumn`; the uuid and the clock reading are parameters. */
    method CreateColumn(freshId: string, title: string, boardId: string, now: string)
      modifies this
      ensures columns == old(columns) + [NewColumn(freshId, title, boardId, now)]
      ensures old(CardIdsDistinct(columns)) ==> CardIdsDistinct(columns)
    {
      columns := columns + [NewColumn(freshId, title, boardId, now)];
    }

    method UpdateColumn(id: string, changes: ColumnChanges)
      modifies this
      ensures columns == UpdatedColumn(old(columns), id, changes)
    {
      var i := FirstIndex(columns, ColumnKey, id);
      if i.Some? {
        columns := columns[i.value := AssignColumn(columns[i.value], changes)];
      }
    }

    method DeleteColumn(columnId: string)
      modifies this
      ensures columns == WithoutColumn(old(columns), columnId)
      ensures old(CardIdsDistinct(columns)) ==> CardIdsDistinct(columns)
    {
      columns := WithoutColumn(columns, columnId);
    }

    method DeleteColumnsForBoard(boardId: string)
      modifies this
      ensures columns == WithoutBoardColumns(old(columns), boardId)
      ensures old(CardIdsDistinct(columns)) ==> CardIdsDistinct(columns)
    {
      columns := WithoutBoardColumns(columns, boardId);
    }

    method AddCardIdToColumn(columnId: string, cardId: string)
      modifies this
      ensures columns == AddedCardId(old(columns), columnId, cardId)
      ensures old(CardIdsDistinct(columns)) ==> CardIdsDistinct(columns)
    {
      var i := FirstIndex(columns, ColumnKey, columnId);
      if i.Some? && cardId !in columns[i.value].cardIds {
        var column := columns[i.value];
        columns := columns[i.value := column.(cardIds := column.cardIds + [cardId])];
      }
    }

    method RemoveCardIdFromColumn(columnId: string, cardId: string)
      modifies this
      ensures columns == RemovedCardId(old(columns), columnId, cardId)
      ensures old(CardIdsDistinct(columns)) ==> CardIdsDistinct(columns)
    {
      var i := FirstIndex(columns, ColumnKey, columnId);
      if i.Some? {
        var column := columns[i.value];
        columns := columns[i.value := column.(cardIds := RemoveAll(column.cardIds, cardId))];
      }
    }

    method ReorderColumnCards(columnId: string, cardIds: seq<string>)
      modifies this
      ensures columns == Reordered(old(columns), columnId, cardIds)
      ensures old(CardIdsDistinct(columns)) && Distinct(cardIds) ==> CardIdsDistinct(columns)
    {
      var i := FirstIndex(columns, ColumnKey, columnId);
      if i.Some? {
        var column := columns[i.value];
        var validCardIds := KnownIds(cardIds, column.cardIds);
        if |validCardIds| == |column.cardIds| {
          columns := columns[i.value := column.(cardIds := validCardIds)];
        }
      }
    }
  }
}
