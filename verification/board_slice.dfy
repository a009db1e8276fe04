/**
 * The boards slice of the store (src/store/features/boards/boardSlice.ts):
 * the board list and the id of the active board.
 */
module BoardSlice {
  import opened Wrappers
  import opened Seqs
  import opened KanbanTypes

  /** Every board lists each column id at most once. */
  ghost predicate ColumnIdsDistinct(boards: seq<Board>) {
    forall b :: b in boards ==> Distinct(b.columnIds)
  }

  /** The record `createBoard` builds: a fresh id, no columns, both timestamps `now`. */
  function NewBoard(freshId: string, title: string, description: string, now: string): Board {
    Board(freshId, title, description, [], Some(now), Some(now))
  }

  function Assign(changes: BoardChanges): Board -> Board {
    b => AssignBoard(b, changes)
  }

  /** `updateBoard`: the first board with `id` takes the changes; all others are untouched. */
  function UpdatedBoard(boards: seq<Board>, id: string, changes: BoardChanges): (r: seq<Board>)
    ensures |r| == |boards|
    ensures FirstIndex(boards, BoardKey, id).None? ==> r == boards
    ensures FirstIndex(boards, BoardKey, id).Some? ==>
      var i := FirstIndex(boards, BoardKey, id).value;
      r[i] == AssignBoard(boards[i], changes) && forall j :: 0 <= j < |boards| && j != i ==> r[j] == boards[j]
    ensures forall j :: 0 <= j < |r| ==> r[j].id == boards[j].id
  {
    UpdateFirst(boards, BoardKey, id, Assign(changes))
  }

  /** The predicate `board => board.id !== boardId`. */
  function OtherBoard(boardId: string): Board -> bool {
    (b: Board) => b.id != boardId
  }

  /** `deleteBoard`: exactly the boards with `boardId` go; every other board stays, as often as before. */
  function WithoutBoard(boards: seq<Board>, boardId: string): (r: seq<Board>)
    ensures forall b :: b in r <==> b in boards && b.id != boardId
    ensures forall b: Board :: b.id != boardId ==> multiset(r)[b] == multiset(boards)[b]
    ensures ColumnIdsDistinct(boards) ==> ColumnIdsDistinct(r)
  {
    var keep := OtherBoard(boardId);
    FilterCount(boards, keep);
    Filter(boards, keep)
  }

  /**
   * `deleteBoard` keeps the surviving boards in their order: it distributes over
   * concatenation, drops a lone board with `boardId` and keeps any other.
   */
  lemma WithoutBoardKeepsOrder(a: seq<Board>, b: seq<Board>, boardId: string, board: Board)
    ensures WithoutBoard(a + b, boardId) == WithoutBoard(a, boardId) + WithoutBoard(b, boardId)
    ensures WithoutBoard([board], boardId) == if board.id == boardId then [] else [board]
  {
    FilterConcat(a, b, OtherBoard(boardId));
    FilterSingleton(board, OtherBoard(boardId));
  }

  function AddColumnId(columnId: string): Board -> Board {
    (b: Board) => b.(columnIds := AppendIfAbsent(b.columnIds, columnId))
  }

  /** `addColumnIdToBoard`: the first board with `boardId` gains `columnId` at the end unless it already lists it. */
  function AddedColumnId(boards: seq<Board>, boardId: string, columnId: string): (r: seq<Board>)
    ensures |r| == |boards|
    ensures FirstIndex(boards, BoardKey, boardId).None? ==> r == boards
    ensures FirstIndex(boards, BoardKey, boardId).Some? ==>
      var i := FirstIndex(boards, BoardKey, boardId).value;
      && columnId in r[i].columnIds
      && r[i] == boards[i].(columnIds := r[i].columnIds)
      && (columnId in boards[i].columnIds ==> r[i] == boards[i])
      && (columnId !in boards[i].columnIds ==> r[i].columnIds == boards[i].columnIds + [columnId])
      && forall j :: 0 <= j < |boards| && j != i ==> r[j] == boards[j]
    ensures ColumnIdsDistinct(boards) ==> ColumnIdsDistinct(r)
  {
    UpdateFirst(boards, BoardKey, boardId, AddColumnId(columnId))
  }

  function RemoveColumnId(columnId: string): Board -> Board {
    (b: Board) => b.(columnIds := RemoveAll(b.columnIds, columnId))
  }

  /** `removeColumnIdFromBoard`: every occurrence of `columnId` leaves the first board with `boardId`. */
  function RemovedColumnId(boards: seq<Board>, boardId: string, columnId: string): (r: seq<Board>)
    ensures |r| == |boards|
    ensures FirstIndex(boards, BoardKey, boardId).None? ==> r == boards
    ensures FirstIndex(boards, BoardKey, boardId).Some? ==>
      var i := FirstIndex(boards, BoardKey, boardId).value;
      && columnId !in r[i].columnIds
      && r[i] == boards[i].(columnIds := r[i].columnIds)
      && r[i].columnIds == RemoveAll(boards[i].columnIds, columnId)
      && forall j :: 0 <= j < |boards| && j != i ==> r[j] == boards[j]
    ensures ColumnIdsDistinct(boards) ==> ColumnIdsDistinct(r)
  {
    UpdateFirst(boards, BoardKey, boardId, RemoveColumnId(columnId))
  }

  /** Adding a column id to a board is idempotent. */
  lemma AddedColumnIdIdempotent(boards: seq<Board>, boardId: string, columnId: string)
    ensures AddedColumnId(AddedColumnId(boards, boardId, columnId), boardId, columnId)
         == AddedColumnId(boards, boardId, columnId)
  {
    UpdateFirstKeepsIndex(boards, BoardKey, boardId, AddColumnId(columnId), boardId);
  }

  /** The board list of the store and the active board, changed in place by the reducers. */
  class BoardState {
    var boards: seq<Board>
    var activeBoard: Option<string>

    /** The initial state: the given boards, the first of them active. */
    constructor (initial: seq<Board>)
      ensures boards == initial
      ensures activeBoard == if initial != [] && initial[0].id != "" then Some(initial[0].id) else None
    {
      boards := initial;
      activeBoard := if initial != [] && initial[0].id != "" then Some(initial[0].id) else None;
    }

    /** `createBoard`; the uuid and the clock reading are parameters. */
    method CreateBoard(freshId: string, title: string, description: string, now: string)
      modifies this
      ensures boards == old(boards) + [NewBoard(freshId, title, description, now)]
      ensures activeBoard == old(activeBoard)
    {
      boards := boards + [NewBoard(freshId, title, description, now)];
    }

    method UpdateBoard(id: string, changes: BoardChanges)
      modifies this
      ensures boards == UpdatedBoard(old(boards), id, changes)
      ensures activeBoard == old(activeBoard)
    {
      var i := FirstIndex(boards, BoardKey, id);
      if i.Some? {
        boards := boards[i.value := AssignBoard(boards[i.value], changes)];
      }
    }

    /** `deleteBoard` never touches `activeBoard`, even when it named the deleted board. */
    method DeleteBoard(boardId: string)
      modifies this
      ensures boards == WithoutBoard(old(boards), boardId)
      ensures activeBoard == old(activeBoard)
    {
      boards := WithoutBoard(boards, boardId);
      if activeBoard == Some(boardId) {
        return;
      }
    }

    /** `setActiveBoard` only switches to a board that exists. */
    method SetActiveBoard(boardId: string)
      modifies this
      ensures boards == old(boards)
      ensures (exists j :: 0 <= j < |boards| && boards[j].id == boardId) ==> activeBoard == Some(boardId)
      ensures (forall j :: 0 <= j < |boards| ==> boards[j].id != boardId) ==> activeBoard == old(activeBoard)
    {
      if exists j :: 0 <= j < |boards| && boards[j].id == boardId {
        activeBoard := Some(boardId);
      }
    }

    method AddColumnIdToBoard(boardId: string, columnId: string)
      modifies this
      ensures boards == AddedColumnId(old(boards), boardId, columnId)
      ensures activeBoard == old(activeBoard)
      ensures old(ColumnIdsDistinct(boards)) ==> ColumnIdsDistinct(boards)
    {
      var i := FirstIndex(boards, BoardKey, boardId);
      if i.Some? && columnId !in boards[i.value].columnIds {
        var board := boards[i.value];
        boards := boards[i.value := board.(columnIds := board.columnIds + [columnId])];
      }
    }

    method RemoveColumnIdFromBoard(boardId: string, columnId: string)
      modifies this
      ensures boards == RemovedColumnId(old(boards), boardId, columnId)
      ensures activeBoard == old(activeBoard)
      ensures old(ColumnIdsDistinct(boards)) ==> ColumnIdsDistinct(boards)
    {
      var i := FirstIndex(boards, BoardKey, boardId);
      if i.Some? {
        var board := boards[i.value];
        boards := boards[i.value := board.(columnIds := RemoveAll(board.columnIds, columnId))];
      }
    }
  }
}
