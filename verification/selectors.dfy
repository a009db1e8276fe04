/**
 * The store's selectors (src/store/selectors/index.ts): pure reads of a
 * snapshot of the three slices.
 */
module Selectors {
  import opened Wrappers
  import opened Seqs
  import opened KanbanTypes

  /** A snapshot of the store: the state of the boards, columns and cards slices. */
  datatype RootState = RootState(
    boards: seq<Board>,
    activeBoard: Option<string>,
    columns: seq<Column>,
    cards: seq<Card>)

  /** `s.map(key)`. */
  function Keys<T>(s: seq<T>, key: T -> string): (r: seq<string>)
    ensures |r| == |s|
    ensures forall i :: 0 <= i < |s| ==> r[i] == key(s[i])
  {
    if s == [] then [] else [key(s[0])] + Keys(s[1..], key)
  }

  /** Whether some record of `s` has key `id`. */
  function Known<T>(s: seq<T>, key: T -> string): string -> bool {
    id => Find(s, key, id).Some?
  }

  /**
   * `ids.map(id => s.find(e => key(e) === id)).filter(Boolean)`: for each requested
   * id in order, the first record with that id; ids without a record are skipped.
   */
  function FindAll<T(!new)>(ids: seq<string>, s: seq<T>, key: T -> string): (r: seq<T>)
    ensures |r| <= |ids|
    ensures forall x :: x in r ==> x in s
    ensures Keys(r, key) == Filter(ids, Known(s, key))
    ensures forall j :: 0 <= j < |r| ==> Find(s, key, key(r[j])) == Some(r[j])
  {
    if ids == [] then []
    else
      var rest := FindAll(ids[1..], s, key);
      match Find(s, key, ids[0])
      case Some(x) =>
        assert Keys([x] + rest, key) == [key(x)] + Keys(rest, key);
        [x] + rest
      case None => rest
  }

  /** When every requested id has a record, one record comes back per id, in the requested order. */
  lemma FindAllComplete<T(!new)>(ids: seq<string>, s: seq<T>, key: T -> string)
    requires forall id :: id in ids ==> Find(s, key, id).Some?
    ensures |FindAll(ids, s, key)| == |ids|
    ensures Keys(FindAll(ids, s, key), key) == ids
  {
    FilterKeepsAll(ids, Known(s, key));
  }

  /** `selectActiveBoard`: the first board whose id is `activeBoard`, or null. */
  function SelectActiveBoard(state: RootState): (r: Option<Board>)
    ensures r.Some? ==> state.activeBoard == Some(r.value.id) && r.value in state.boards
    ensures r.Some? ==> r.value == state.boards[FirstIndex(state.boards, BoardKey, r.value.id).value]
    ensures r.None? <==> state.activeBoard.None? || forall b :: b in state.boards ==> b.id != state.activeBoard.value
  {
    match state.activeBoard
    case None => None
    case Some(id) => Find(state.boards, BoardKey, id)
  }

  /**
   * `selectBoardColumns`: no active board gives no columns; otherwise the board's
   * columns in its `columnIds` order, skipping ids that have no column.
   */
  function SelectBoardColumns(state: RootState): (r: seq<Column>)
    ensures SelectActiveBoard(state).None? ==> r == []
    ensures SelectActiveBoard(state).Some? ==>
      Keys(r, ColumnKey) == Filter(SelectActiveBoard(state).value.columnIds, Known(state.columns, ColumnKey))
    ensures forall c :: c in r ==> c in state.columns
  {
    match SelectActiveBoard(state)
    case None => []
    case Some(board) => FindAll(board.columnIds, state.columns, ColumnKey)
  }

  /** `selectCardsByIds`: the cards with the requested ids, in the requested order, no more of them than ids. */
  function SelectCardsByIds(state: RootState, cardIds: seq<string>): (r: seq<Card>)
    ensures |r| <= |cardIds|
    ensures Keys(r, CardKey) == Filter(cardIds, Known(state.cards, CardKey))
    ensures forall c :: c in r ==> c in state.cards
  {
    FindAll(cardIds, state.cards, CardKey)
  }

  /** `selectColumnById`: the first column with the id, or null. */
  function SelectColumnById(state: RootState, columnId: string): (r: Option<Column>)
    ensures r.Some? <==> exists j :: 0 <= j < |state.columns| && state.columns[j].id == columnId
    ensures r.Some? ==> r.value == state.columns[FirstIndex(state.columns, ColumnKey, columnId).value]
  {
    Find(state.columns, ColumnKey, columnId)
  }

  /** `selectCardById`: the first card with the id, or undefined. */
  function SelectCardById(state: RootState, cardId: string): (r: Option<Card>)
    ensures r.Some? <==> exists j :: 0 <= j < |state.cards| && state.cards[j].id == cardId
    ensures r.Some? ==> r.value == state.cards[FirstIndex(state.cards, CardKey, cardId).value]
  {
    Find(state.cards, CardKey, cardId)
  }

  /**
   * `selectColumnCards`: nothing for an unknown column; otherwise the column's cards
   * in `cardIds` order, dangling ids dropped.
   */
  function SelectColumnCards(state: RootState, columnId: string): (r: seq<Card>)
    ensures SelectColumnById(state, columnId).None? ==> r == []
    ensures SelectColumnById(state, columnId).Some? ==>
      Keys(r, CardKey) == Filter(SelectColumnById(state, columnId).value.cardIds, Known(state.cards, CardKey))
  {
    match Find(state.columns, ColumnKey, columnId)
    case None => []
    case Some(column) => FindAll(column.cardIds, state.cards, CardKey)
  }

  /** The cards of a column are exactly what `selectCardsByIds` gives for the ids it lists. */
  lemma ColumnCardsAreCardsByIds(state: RootState, columnId: string)
    requires SelectColumnById(state, columnId).Some?
    ensures SelectColumnCards(state, columnId) == SelectCardsByIds(state, SelectColumnById(state, columnId).value.cardIds)
  {
  }
}
