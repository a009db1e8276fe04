/**
 * The records of the kanban store (src/store/types.ts) and the partial
 * records that `updateBoard`, `updateColumn` and `updateCard` merge into
 * them with `Object.assign`.
 */
module KanbanTypes {
  import opened Wrappers

  datatype Subtask = Subtask(title: string, done: bool)

  /** A card; optional fields of the source record are `Option`s. Images are kept by their URL strings. */
  datatype Card = Card(
    id: string,
    title: string,
    description: string,
    tags: seq<string>,
    dueDate: Option<string>,
    subTasks: Option<seq<Subtask>>,
    images: Option<seq<string>>,
    links: Option<seq<string>>,
    createdAt: Option<string>,
    updatedAt: Option<string>)

  /** A column: its board and the ordered ids of the cards it shows. */
  datatype Column = Column(
    id: string,
    title: string,
    boardId: string,
    createdAt: string,
    updatedAt: string,
    cardIds: seq<string>)

  /** A board: the ordered ids of its columns. */
  datatype Board = Board(
    id: string,
    title: string,
    description: string,
    columnIds: seq<string>,
    createdAt: Option<string>,
    updatedAt: Option<string>)

  function BoardKey(b: Board): string { b.id }
  function ColumnKey(c: Column): string { c.id }
  function CardKey(c: Card): string { c.id }

  /** The fields of `Partial<Board>` other than `id`; `None` is a field the payload does not carry. */
  datatype BoardChanges = BoardChanges(
    title: Option<string>,
    description: Option<string>,
    columnIds: Option<seq<string>>,
    createdAt: Option<string>,
    updatedAt: Option<string>)

  datatype ColumnChanges = ColumnChanges(
    title: Option<string>,
    boardId: Option<string>,
    createdAt: Option<string>,
    updatedAt: Option<string>,
    cardIds: Option<seq<string>>)

  datatype CardChanges = CardChanges(
    title: Option<string>,
    description: Option<string>,
    tags: Option<seq<string>>,
    dueDate: Option<string>,
    subTasks: Option<seq<Subtask>>,
    images: Option<seq<string>>,
    links: Option<seq<string>>,
    createdAt: Option<string>,
    updatedAt: Option<string>)

  /**
   * `Object.assign(board, changes)`: every field the payload carries takes the
   * payload's value, every other field keeps its own; `id` was split off the
   * payload, so it never changes.
   */
  function AssignBoard(b: Board, ch: BoardChanges): (r: Board)
    ensures r.id == b.id
    ensures ch.title.Some? ==> r.title == ch.title.value
    ensures ch.title.None? ==> r.title == b.title
    ensures ch.description.Some? ==> r.description == ch.description.value
    ensures ch.description.None? ==> r.description == b.description
    ensures ch.columnIds.Some? ==> r.columnIds == ch.columnIds.value
    ensures ch.columnIds.None? ==> r.columnIds == b.columnIds
    ensures ch.createdAt.Some? ==> r.createdAt == ch.createdAt
    ensures ch.createdAt.None? ==> r.createdAt == b.createdAt
    ensures ch.updatedAt.Some? ==> r.updatedAt == ch.updatedAt
    ensures ch.updatedAt.None? ==> r.updatedAt == b.updatedAt
    ensures ch == BoardChanges(None, None, None, None, None) ==> r == b
  {
    Board(
      b.id,
      ch.title.GetOr(b.title),
      ch.description.GetOr(b.description),
      ch.columnIds.GetOr(b.columnIds),
      ch.createdAt.Or(b.createdAt),
      ch.updatedAt.Or(b.updatedAt))
  }

  /** `Object.assign(column, changes)`: carried fields take the payload's value, the rest stay; `id` never changes. */
  function AssignColumn(c: Column, ch: ColumnChanges): (r: Column)
    ensures r.id == c.id
    ensures ch.title.Some? ==> r.title == ch.title.value
    ensures ch.title.None? ==> r.title == c.title
    ensures ch.boardId.Some? ==> r.boardId == ch.boardId.value
    ensures ch.boardId.None? ==> r.boardId == c.boardId
    ensures ch.createdAt.Some? ==> r.createdAt == ch.createdAt.value
    ensures ch.createdAt.None? ==> r.createdAt == c.createdAt
    ensures ch.updatedAt.Some? ==> r.updatedAt == ch.updatedAt.value
    ensures ch.updatedAt.None? ==> r.updatedAt == c.updatedAt
    ensures ch.cardIds.Some? ==> r.cardIds == ch.cardIds.value
    ensures ch.cardIds.None? ==> r.cardIds == c.cardIds
    ensures ch == ColumnChanges(None, None, None, None, None) ==> r == c
  {
    Column(
      c.id,
      ch.title.GetOr(c.title),
      ch.boardId.GetOr(c.boardId),
      ch.createdAt.GetOr(c.createdAt),
      ch.updatedAt.GetOr(c.updatedAt),
      ch.cardIds.GetOr(c.cardIds))
  }

  /** `Object.assign(card, changes)`: carried fields take the payload's value, the rest stay; `id` never changes. */
  function AssignCard(c: Card, ch: CardChanges): (r: Card)
    ensures r.id == c.id
    ensures ch.title.Some? ==> r.title == ch.title.value
    ensures ch.title.None? ==> r.title == c.title
    ensures ch.description.Some? ==> r.description == ch.description.value
    ensures ch.description.None? ==> r.description == c.description
    ensures ch.tags.Some? ==> r.tags == ch.tags.value
    ensures ch.tags.None? ==> r.tags == c.tags
    ensures ch.dueDate.Some? ==> r.dueDate == ch.dueDate
    ensures ch.dueDate.None? ==> r.dueDate == c.dueDate
    ensures ch.subTasks.Some? ==> r.subTasks == ch.subTasks
    ensures ch.subTasks.None? ==> r.subTasks == c.subTasks
    ensures ch.images.Some? ==> r.images == ch.images
    ensures ch.images.None? ==> r.images == c.images
    ensures ch.links.Some? ==> r.links == ch.links
    ensures ch.links.None? ==> r.links == c.links
    ensures ch.createdAt.Some? ==> r.createdAt == ch.createdAt
    ensures ch.createdAt.None? ==> r.createdAt == c.createdAt
    ensures ch.updatedAt.Some? ==> r.updatedAt == ch.updatedAt
    ensures ch.updatedAt.None? ==> r.updatedAt == c.updatedAt
    ensures ch == CardChanges(None, None, None, None, None, None, None, None, None) ==> r == c
  {
    Card(
      c.id,
      ch.title.GetOr(c.title),
      ch.description.GetOr(c.description),
      ch.tags.GetOr(c.tags),
      ch.dueDate.Or(c.dueDate),
      ch.subTasks.Or(c.subTasks),
      ch.images.Or(c.images),
      ch.links.Or(c.links),
      ch.createdAt.Or(c.createdAt),
      ch.updatedAt.Or(c.updatedAt))
  }
}
