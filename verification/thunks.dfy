/**
 * The store's thunks (src/store/thunks/index.ts): each reads the state once and
 * then dispatches a fixed sequence of reducers on the three slices.
 */
module Thunks {
  import opened Wrappers
  import opened Seqs
  import opened KanbanTypes
  import opened ColumnSlice
  import opened BoardSlice
  import opened CardSlice

  /** `columns.filter(col => col.boardId === boardId)`. */
  function ColumnsOfBoard(cols: seq<Column>, boardId: string): (r: seq<Column>)
    ensures forall c :: c in r <==> c in cols && c.boardId == boardId
  {
    Filter(cols, (c: Column) => c.boardId == boardId)
  }

  /** `cols.flatMap(col => col.cardIds)`. */
  function FlatCardIds(cols: seq<Column>): (r: seq<string>)
    ensures forall x :: x in r <==> exists c :: c in cols && x in c.cardIds
  {
    if cols == [] then []
    else
      var rest := FlatCardIds(cols[1..]);
      assert forall c :: c in cols <==> c == cols[0] || c in cols[1..];
      cols[0].cardIds + rest
  }

  /** The ids of every card listed by a column of `boardId`. */
  function BoardCardIds(cols: seq<Column>, boardId: string): (r: seq<string>)
    ensures forall x :: x in r <==> exists c :: c in cols && c.boardId == boardId && x in c.cardIds
  {
    FlatCardIds(ColumnsOfBoard(cols, boardId))
  }

  /**
   * `deleteBoardWithRelated`: deletes every card listed by a column of the board,
   * every column whose `boardId` is the board, and the board itself; returns its id.
   */
  method DeleteBoardWithRelated(boards: BoardState, columns: ColumnState, cards: CardState, boardId: string)
    returns (r: string)
    modifies boards, columns, cards
    ensures r == boardId
    ensures cards.cards == WithoutCards(old(cards.cards), BoardCardIds(old(columns.columns), boardId))
    ensures columns.columns == WithoutBoardColumns(old(columns.columns), boardId)
    ensures boards.boards == WithoutBoard(old(boards.boards), boardId)
    ensures boards.activeBoard == old(boards.activeBoard)
    ensures forall c, col :: c in cards.cards && col in old(columns.columns) && col.boardId == boardId ==> c.id !in col.cardIds
    ensures forall col :: col in columns.columns ==> col.boardId != boardId
    ensures forall b :: b in boards.boards ==> b.id != boardId
  {
    var columnsToDelete := ColumnsOfBoard(columns.columns, boardId);
    var cardIdsToDelete := FlatCardIds(columnsToDelete);
    if |cardIdsToDelete| > 0 {
      cards.DeleteCardsByIds(cardIdsToDelete);
    }
    columns.DeleteColumnsForBoard(boardId);
    boards.DeleteBoard(boardId);
    r := boardId;
  }

  /** The message of the error `deleteColumnWithRelated` throws for an unknown column. */
  function ColumnNotFound(columnId: string): string {
    "Column with ID " + columnId + " not found"
  }

  /**
   * `deleteColumnWithRelated`: for an unknown column it fails and changes nothing;
   * otherwise it drops the id from its board's `columnIds`, deletes the cards the
   * column lists, deletes the column, and returns the id.
   */
  method DeleteColumnWithRelated(boards: BoardState, columns: ColumnState, cards: CardState, columnId: string)
    returns (r: Result<string, string>)
    modifies boards, columns, cards
    ensures r.Failure? <==> Find(old(columns.columns), ColumnKey, columnId).None?
    ensures r.Failure? ==>
      && r.error == ColumnNotFound(columnId)
      && boards.boards == old(boards.boards) && columns.columns == old(columns.columns) && cards.cards == old(cards.cards)
    ensures r.Success? ==>
      var column := Find(old(columns.columns), ColumnKey, columnId).value;
      && r.value == columnId
      && boards.boards == RemovedColumnId(old(boards.boards), column.boardId, columnId)
      && cards.cards == WithoutCards(old(cards.cards), column.cardIds)
      && columns.columns == WithoutColumn(old(columns.columns), columnId)
    ensures boards.activeBoard == old(boards.activeBoard)
  {
    var found := Find(columns.columns, ColumnKey, columnId);
    if found.None? {
      return Failure(ColumnNotFound(columnId));
    }
    var column := found.value;
    boards.RemoveColumnIdFromBoard(column.boardId, columnId);
    if |column.cardIds| > 0 {
      cards.DeleteCardsByIds(column.cardIds);
    }
    columns.DeleteColumn(columnId);
    return Success(columnId);
  }

  /** The card `createCardInColumn` stores; the uuid and the clock reading are parameters. */
  function NewCard(freshId: string, title: string, description: string, tags: seq<string>,
                   dueDate: Option<string>, now: string): Card {
    Card(freshId, title, description, tags, dueDate, None, None, None, Some(now), Some(now))
  }

  /**
   * `createCardInColumn`: stores a new card under the fresh id, adds that id to
   * the column (when the column exists) and returns it.
   */
  method CreateCardInColumn(columns: ColumnState, cards: CardState, freshId: string, now: string,
                            columnId: string, title: string, description: string, tags: seq<string>,
                            dueDate: Option<string>)
    returns (cardId: string)
    modifies columns, cards
    ensures cardId == freshId
    ensures cards.cards == old(cards.cards) + [NewCard(freshId, title, description, tags, dueDate, now)]
    ensures columns.columns == AddedCardId(old(columns.columns), columnId, cardId)
    ensures FirstIndex(old(columns.columns), ColumnKey, columnId).Some? ==> cardId in CardIdsIn(columns.columns, columnId)
  {
    cardId := freshId;
    cards.CreateCard(NewCard(cardId, title, description, tags, dueDate, now));
    columns.AddCardIdToColumn(columnId, cardId);
    CardIdsInAfterUpdate(old(columns.columns), columnId, AddCardId(cardId), columnId);
  }

  /** `[...ids.slice(0, k), cardId, ...ids.slice(k)]`. */
  function InsertAt(ids: seq<string>, k: int, cardId: string): (r: seq<string>)
    ensures |r| == |ids| + 1
    ensures cardId in r
    ensures forall x :: x in r <==> x in ids || x == cardId
    ensures var at := SliceIndex(k, |ids|);
      r[at] == cardId && r[..at] == ids[..at] && r[at + 1..] == ids[at..]
    ensures 0 <= k <= |ids| ==> r[k] == cardId
    ensures k < 0 ==> r[if |ids| + k < 0 then 0 else |ids| + k] == cardId
    ensures k > |ids| ==> r == ids + [cardId]
  {
    var at := SliceIndex(k, |ids|);
    SliceSplit(ids, k);
    ids[..at] + [cardId] + ids[at..]
  }

  /**
   * The column list after `moveCardBetweenColumns`: the card id leaves the source
   * column; then, without an index, it is appended to the destination unless already
   * there; with an index, the destination is asked to take its ids as they were
   * BEFORE the removal with the card inserted at that index.
   */
  function Moved(cols: seq<Column>, cardId: string, sourceColumnId: string,
                 destinationColumnId: string, destinationIndex: Option<int>): seq<Column>
  {
    var removed := RemovedCardId(cols, sourceColumnId, cardId);
    match destinationIndex
    case Some(k) => Reordered(removed, destinationColumnId, InsertAt(CardIdsIn(cols, destinationColumnId), k, cardId))
    case None => AddedCardId(removed, destinationColumnId, cardId)
  }

  /** `moveCardBetweenColumns`; boards and cards are not touched. */
  method MoveCardBetweenColumns(columns: ColumnState, cardId: string, sourceColumnId: string,
                                destinationColumnId: string, destinationIndex: Option<int>)
    modifies columns
    ensures columns.columns == Moved(old(columns.columns), cardId, sourceColumnId, destinationColumnId, destinationIndex)
    ensures old(CardIdsDistinct(columns.columns)) && destinationIndex.None? ==> CardIdsDistinct(columns.columns)
  {
    var state := columns.columns;
    columns.RemoveCardIdFromColumn(sourceColumnId, cardId);
    if destinationIndex.Some? {
      var destinationColumnCardIds := CardIdsIn(state, destinationColumnId);
      columns.ReorderColumnCards(destinationColumnId, InsertAt(destinationColumnCardIds, destinationIndex.value, cardId));
    } else {
      columns.AddCardIdToColumn(destinationColumnId, cardId);
    }
  }

  /**
   * A move without an index between two existing, distinct columns leaves the card
   * in the destination exactly once and not in the source; the destination's other
   * ids and their order are kept.
   */
  lemma MoveToOtherColumn(cols: seq<Column>, cardId: string, src: string, dst: string)
    requires src != dst
    requires FirstIndex(cols, ColumnKey, dst).Some?
    requires Distinct(CardIdsIn(cols, dst))
    ensures var r := Moved(cols, cardId, src, dst, None);
      && cardId !in CardIdsIn(r, src)
      && multiset(CardIdsIn(r, dst))[cardId] == 1
      && CardIdsIn(r, dst) == AppendIfAbsent(CardIdsIn(cols, dst), cardId)
      && (cardId !in CardIdsIn(cols, dst) ==> CardIdsIn(r, dst) == CardIdsIn(cols, dst) + [cardId])
      && (cardId in CardIdsIn(cols, dst) ==> CardIdsIn(r, dst) == CardIdsIn(cols, dst))
  {
    var removed := RemovedCardId(cols, src, cardId);
    CardIdsInAfterUpdate(cols, src, RemoveCardId(cardId), src);
    CardIdsInAfterUpdate(cols, src, RemoveCardId(cardId), dst);
    UpdateFirstKeepsIndex(cols, ColumnKey, src, RemoveCardId(cardId), dst);
    CardIdsInAfterUpdate(removed, dst, AddCardId(cardId), src);
    CardIdsInAfterUpdate(removed, dst, AddCardId(cardId), dst);
  }

  /** A move without an index within one existing column sends the card to the end of it. */
  lemma MoveWithinColumn(cols: seq<Column>, cardId: string, col: string)
    requires FirstIndex(cols, ColumnKey, col).Some?
    ensures CardIdsIn(Moved(cols, cardId, col, col, None), col) == RemoveAll(CardIdsIn(cols, col), cardId) + [cardId]
  {
    var removed := RemovedCardId(cols, col, cardId);
    CardIdsInAfterUpdate(cols, col, RemoveCardId(cardId), col);
    UpdateFirstKeepsIndex(cols, ColumnKey, col, RemoveCardId(cardId), col);
    CardIdsInAfterUpdate(removed, col, AddCardId(cardId), col);
  }

  /**
   * With an index the card is lost: `reorderColumnCards` keeps only ids the
   * destination already lists, so a card it did not list (or, for a move within
   * one column, the card just removed) is filtered out, and the source has
   * dropped it too. The card ends up in neither column.
   */
  lemma MoveWithIndexLosesCard(cols: seq<Column>, cardId: string, src: string, dst: string, k: int)
    requires src == dst || cardId !in CardIdsIn(cols, dst)
    ensures var r := Moved(cols, cardId, src, dst, Some(k));
      cardId !in CardIdsIn(r, src) && cardId !in CardIdsIn(r, dst)
  {
    var removed := RemovedCardId(cols, src, cardId);
    var requested := InsertAt(CardIdsIn(cols, dst), k, cardId);
    CardIdsInAfterUpdate(cols, src, RemoveCardId(cardId), src);
    CardIdsInAfterUpdate(cols, src, RemoveCardId(cardId), dst);
    UpdateFirstKeepsIndex(cols, ColumnKey, src, RemoveCardId(cardId), dst);
    assert cardId !in CardIdsIn(removed, dst);
    CardIdsInAfterUpdate(removed, dst, Reorder(requested), src);
    CardIdsInAfterUpdate(removed, dst, Reorder(requested), dst);
  }
}
