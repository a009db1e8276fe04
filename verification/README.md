# Kanban board core, modelled in Dafny

This project models the core of a kanban board web app. The app is written in
TypeScript with React and Redux Toolkit. The model covers five parts.

- **The store.** There are three slices: boards, columns and cards. Each slice
  is a class with a sequence field. Its reducers are methods, and each method is
  proved equal to a pure function of the old list. That function carries the
  real contract.
  - **Thunks.** They read one snapshot of the state and then dispatch a fixed
    sequence of reducers.
  - **Selectors.** They are pure reads of a `RootState` value.
- **The drag-and-drop hook.** The page is abstracted to integer geometry.
  - The rendered `[data-column-id]` elements are `ColumnBox` values in document
    order.
  - The hook's refs and its `draggingCard` state are the fields of `DragSession`.
  - The dragged clone is the session's `clone`.
  - The scrollable boundary is a `ScrollBox`.
  - A call to `onCardMove` is the `CardMove` value that `MouseUp` returns.
  - The press, move and release handlers are methods. The forward-only rule is
    the predicate `ValidDrop`, and the loops in the hook are proved against it.
- **The tab list.** This covers the cyclic keyboard navigation, over tab ids.
- **The calendar hook's month grid.** Dates are day ordinals: consecutive
  integers for consecutive days, where a day's weekday is its ordinal modulo 7.
- **The Pomodoro timers and the tag-colour hash.**

Files:

| file | contents |
|---|---|
| `wrappers.dfy` | `Option`, `Result` |
| `seqs.dfy` | the JS array operations used throughout: `filter`, `find`/`findIndex`, `indexOf`, `includes` + `push`, and `slice` indices |
| `kanban_types.dfy` | `Card`, `Column`, `Board` and `Object.assign` with a partial record |
| `column_slice.dfy`, `board_slice.dfy`, `card_slice.dfy` | the reducers |
| `thunks.dfy`, `selectors.dfy` | the thunks and the selectors |
| `drag_and_drop.dfy` | the drag-and-drop hook |
| `tabs.dfy`, `calendar.dfy`, `pomodoro.dfy`, `tag_colors.dfy` | the small self-contained rules |

Several behaviours of the code are stated as lemmas rather than hidden:

- **`reorderColumnCards` only checks the length of the filtered request.** It
  therefore accepts a request that duplicates one id and drops another
  (`ReorderedAcceptsDuplicates`).
- **`moveCardBetweenColumns` with a `destinationIndex` loses the card.** It
  sends the card id to `reorderColumnCards`. That reducer keeps only the ids the
  column already lists, so the card ends up in neither column
  (`MoveWithIndexLosesCard`).
- **`weekIndex` is not always the row a cell is shown in.** The grid's cells
  carry `weekIndex` values that do not always match their row
  (`WeekIndexAsComputed`). Nothing in the app reads the field.

## Model

| member | source | states |
|---|---|---|
| KanbanTypes.AssignBoard | src/store/features/boards/boardSlice.ts:36-43 | `Object.assign` with the changes: each field the payload carries takes the payload's value, each field it leaves out keeps the board's, the id never changes, and no changes leave the board as it was |
| KanbanTypes.AssignColumn | src/store/features/column/columnSlice.ts:39-49 | the same field-by-field merge for a column: carried fields take the payload's value, the others and the id stay |
| KanbanTypes.AssignCard | src/store/features/cards/cardSlice.ts:25-32 | the same field-by-field merge for a card, over all nine optional fields |
| ColumnSlice.UpdatedColumn | src/store/features/column/columnSlice.ts:39-49 | only the first column with the id takes the changes, every other column and every id is unchanged, and an unknown id changes nothing |
| ColumnSlice.WithoutColumn | src/store/features/column/columnSlice.ts:51-54 | a column survives iff its id differs, survivors keep their multiplicity, and an absent id changes nothing |
| ColumnSlice.WithoutColumnKeepsOrder | src/store/features/column/columnSlice.ts:51-54 | the deletion distributes over concatenation, drops a lone matching column and keeps any other, so the survivors keep their order |
| ColumnSlice.WithoutBoardColumns | src/store/features/column/columnSlice.ts:56-61 | a column survives iff its `boardId` differs, survivors keep their multiplicity, and per-column distinct card ids are preserved |
| ColumnSlice.WithoutBoardColumnsKeepsOrder | src/store/features/column/columnSlice.ts:56-61 | the deletion distributes over concatenation, drops a lone column of the board and keeps any other, so the survivors keep their order |
| ColumnSlice.AddedCardId | src/store/features/column/columnSlice.ts:63-73 | the first matching column ends up listing the card, appended at the end only if absent; other columns and fields are unchanged; an unknown column changes nothing; no duplicate is ever created |
| Seqs.RemoveAllKeepsOrder | src/store/features/column/columnSlice.ts:83 | `filter(id => id !== x)` distributes over concatenation, drops a lone `x` and keeps any other element, so the remaining ids keep their order |
| ColumnSlice.RemovedCardId | src/store/features/column/columnSlice.ts:75-85 | the first matching column no longer lists the card, and its ids become `RemoveAll` of the old ones, which keeps the others' multiplicity and, by `Seqs.RemoveAllKeepsOrder`, their order; the rest is unchanged; distinctness is preserved |
| ColumnSlice.KnownIds | src/store/features/column/columnSlice.ts:94-98 | the kept ids are exactly the requested ids the column lists, and a duplicate-free request gives a duplicate-free result |
| ColumnSlice.KnownIdsKeepsOrder | src/store/features/column/columnSlice.ts:94-98 | the filter distributes over concatenation of the request, keeps a lone listed id and drops a lone unknown one, so the kept ids stay in request order |
| ColumnSlice.Reordered | src/store/features/column/columnSlice.ts:87-103 | the first matching column takes the filtered request iff it has the old length, and otherwise is unchanged; it never gains a new id and keeps its length; other columns are unchanged |
| ColumnSlice.CardIdsIn | src/store/thunks/index.ts:130-135 | the ids listed by the first column with the id, or none for an unknown column |
| ColumnSlice.AddedCardIdIdempotent | src/store/features/column/columnSlice.ts:68-72 | adding a card id twice is the same as adding it once |
| ColumnSlice.ReorderedPermutation | src/store/features/column/columnSlice.ts:94-101 | a request that is a permutation of the column's ids is accepted exactly as given |
| ColumnSlice.ReorderedAcceptsDuplicates | src/store/features/column/columnSlice.ts:94-101 | for the column `["a","b"]`, the request `["a","a"]` is accepted and leaves a duplicate |
| ColumnSlice.ColumnState.CreateColumn | src/store/features/column/columnSlice.ts:23-37 | appends exactly one new column with no card ids after the unchanged old list |
| ColumnSlice.ColumnState.UpdateColumn | src/store/features/column/columnSlice.ts:39-49 | the in-place update of the found column yields `UpdatedColumn` |
| ColumnSlice.ColumnState.DeleteColumn | src/store/features/column/columnSlice.ts:51-54 | the new list is `WithoutColumn` (order kept by `WithoutColumnKeepsOrder`); distinct card ids per column are kept |
| ColumnSlice.ColumnState.DeleteColumnsForBoard | src/store/features/column/columnSlice.ts:56-61 | the new list is `WithoutBoardColumns` (order kept by `WithoutBoardColumnsKeepsOrder`) |
| ColumnSlice.ColumnState.AddCardIdToColumn | src/store/features/column/columnSlice.ts:63-73 | the guarded push into the found column yields `AddedCardId` and keeps card ids distinct |
| ColumnSlice.ColumnState.RemoveCardIdFromColumn | src/store/features/column/columnSlice.ts:75-85 | the filter of the found column's ids yields `RemovedCardId` and keeps card ids distinct |
| ColumnSlice.ColumnState.ReorderColumnCards | src/store/features/column/columnSlice.ts:87-103 | the guarded replacement yields `Reordered`; distinctness is kept only for a duplicate-free request |
| BoardSlice.UpdatedBoard | src/store/features/boards/boardSlice.ts:36-43 | only the first board with the id takes the changes, and an unknown id changes nothing |
| BoardSlice.WithoutBoard | src/store/features/boards/boardSlice.ts:45-52 | a board survives iff its id differs; survivors keep their multiplicity |
| BoardSlice.WithoutBoardKeepsOrder | src/store/features/boards/boardSlice.ts:45-52 | the deletion distributes over concatenation, drops a lone matching board and keeps any other, so the survivors keep their order |
| BoardSlice.AddedColumnId | src/store/features/boards/boardSlice.ts:62-69 | the first matching board ends up listing the column id, appended only if absent; everything else is unchanged |
| BoardSlice.RemovedColumnId | src/store/features/boards/boardSlice.ts:71-78 | every occurrence of the column id leaves the first matching board, whose ids become `RemoveAll` of the old ones (order kept by `Seqs.RemoveAllKeepsOrder`); the other boards are unchanged |
| BoardSlice.AddedColumnIdIdempotent | src/store/features/boards/boardSlice.ts:62-69 | adding a column id twice is the same as adding it once |
| BoardSlice.BoardState.constructor | src/store/features/boards/boardSlice.ts:13-18 | the first board is active, or none when the list is empty or the id is empty |
| BoardSlice.BoardState.CreateBoard | src/store/features/boards/boardSlice.ts:24-34 | appends one board with no column ids; `activeBoard` is unchanged |
| BoardSlice.BoardState.UpdateBoard | src/store/features/boards/boardSlice.ts:36-43 | the new list is `UpdatedBoard` |
| BoardSlice.BoardState.DeleteBoard | src/store/features/boards/boardSlice.ts:45-52 | the new list is `WithoutBoard` (order kept by `WithoutBoardKeepsOrder`), and `activeBoard` is never changed, even when it named the deleted board |
| BoardSlice.BoardState.SetActiveBoard | src/store/features/boards/boardSlice.ts:55-60 | switches to the id iff some board has it; otherwise nothing changes |
| BoardSlice.BoardState.AddColumnIdToBoard | src/store/features/boards/boardSlice.ts:62-69 | yields `AddedColumnId` and keeps column ids distinct |
| BoardSlice.BoardState.RemoveColumnIdFromBoard | src/store/features/boards/boardSlice.ts:71-78 | yields `RemovedColumnId` and keeps column ids distinct |
| CardSlice.UpdatedCard | src/store/features/cards/cardSlice.ts:25-32 | only the first card with the id takes the changes, and an unknown id changes nothing |
| CardSlice.WithoutCard | src/store/features/cards/cardSlice.ts:34-37 | a card survives iff its id differs; survivors keep their multiplicity |
| CardSlice.WithoutCardKeepsOrder | src/store/features/cards/cardSlice.ts:34-37 | the deletion distributes over concatenation, drops a lone matching card and keeps any other, so the survivors keep their order |
| CardSlice.WithoutCards | src/store/features/cards/cardSlice.ts:48-51 | a card survives iff its id is not listed, and an empty list changes nothing |
| CardSlice.WithoutCardsKeepsOrder | src/store/features/cards/cardSlice.ts:48-51 | the deletion distributes over concatenation, drops a lone listed card and keeps any other, so the survivors keep their order |
| CardSlice.ToggledSubtask | src/store/features/cards/cardSlice.ts:39-46 | flips `done` of exactly one subtask, only for a known card whose subtask list has that index; titles, other subtasks, other fields and other cards are unchanged |
| CardSlice.ToggledSubtaskTwice | src/store/features/cards/cardSlice.ts:44 | toggling the same subtask twice restores the cards |
| CardSlice.CardState.CreateCard | src/store/features/cards/cardSlice.ts:21-23 | the payload becomes the last card, and earlier cards are unchanged |
| CardSlice.CardState.UpdateCard | src/store/features/cards/cardSlice.ts:25-32 | the new list is `UpdatedCard` |
| CardSlice.CardState.DeleteCard | src/store/features/cards/cardSlice.ts:34-37 | the new list is `WithoutCard` (order kept by `WithoutCardKeepsOrder`) |
| CardSlice.CardState.ToggleSubtaskDone | src/store/features/cards/cardSlice.ts:39-46 | the guarded flip in place yields `ToggledSubtask` |
| CardSlice.CardState.DeleteCardsByIds | src/store/features/cards/cardSlice.ts:48-51 | the new list is `WithoutCards` (order kept by `WithoutCardsKeepsOrder`) |
| Thunks.ColumnsOfBoard | src/store/thunks/index.ts:24-26 | exactly the columns whose `boardId` matches |
| Thunks.FlatCardIds | src/store/thunks/index.ts:28-30 | an id is in the flattened list iff some column lists it |
| Thunks.BoardCardIds | src/store/thunks/index.ts:24-30 | an id is collected iff a column of the board lists it |
| Thunks.DeleteBoardWithRelated | src/store/thunks/index.ts:17-40 | removes the cards listed by the board's columns, then those columns, then the board; no survivor refers to the board, and `activeBoard` is untouched |
| Thunks.DeleteColumnWithRelated | src/store/thunks/index.ts:43-72 | fails with "Column with ID … not found", changing nothing, iff the column is unknown; otherwise drops the id from its board, deletes its cards and deletes the column |
| Thunks.CreateCardInColumn | src/store/thunks/index.ts:75-105 | appends a card with the fresh id, adds that id to the column, returns it, and the column then lists it |
| Thunks.InsertAt | src/store/thunks/index.ts:138-142 | the spread of two slices around the card puts the card at the clamped slice index (`k` itself when `0 <= k <= length`, counted from the end when negative, last when past the end), with the ids before that index in front of it and the rest after it, in their order |
| Thunks.MoveCardBetweenColumns | src/store/thunks/index.ts:107-153 | removal from the source, then an append-if-absent or a reorder built from the pre-removal snapshot (`Moved`); without an index, distinct card ids are preserved |
| Thunks.MoveToOtherColumn | src/store/thunks/index.ts:122-152 | between distinct columns, without an index, the card is then in the destination exactly once and no longer in the source; the destination's ids are `AppendIfAbsent` of the old ones: the card is appended after them when absent, otherwise they are left as they were |
| Thunks.MoveWithinColumn | src/store/thunks/index.ts:122-152 | within one column, without an index, the card goes to the end of that column |
| Thunks.MoveWithIndexLosesCard | src/store/thunks/index.ts:129-144 | with an index, a card that the destination did not list ends up in neither column, and so does one moved within its own column |
| Selectors.FindAll | src/store/selectors/index.ts:28 | maps the requested ids to the first matching records, in request order, skipping unknown ids; never longer than the request |
| Selectors.FindAllComplete | src/store/selectors/index.ts:28 | when every id is known, exactly one record comes back per id, in order |
| Selectors.SelectActiveBoard | src/store/selectors/index.ts:8-11 | the first board whose id is `activeBoard`; none iff there is no active id or no board has it |
| Selectors.SelectBoardColumns | src/store/selectors/index.ts:16-20 | none without an active board; otherwise the board's columns in `columnIds` order, skipping unknown ids |
| Selectors.SelectCardsByIds | src/store/selectors/index.ts:25-30 | cards in the requested order, dangling ids dropped, no longer than the request |
| Selectors.SelectColumnCards | src/store/selectors/index.ts:32-41 | none for an unknown column; otherwise its cards in `cardIds` order, dangling ids dropped |
| Selectors.SelectCardById | src/store/selectors/index.ts:44-47 | found iff some card has the id, and then it is the first one |
| Selectors.SelectColumnById | src/store/selectors/index.ts:49-52 | found iff some column has the id, and then it is the first one |
| Selectors.ColumnCardsAreCardsByIds | src/store/selectors/index.ts:25-41 | a column's cards are what `selectCardsByIds` gives for its ids |
| DragAndDrop.RenderedIds | src/hooks/useDragAndDrop.ts:69-75 | an id is collected iff it is non-empty and some rendered column carries it |
| DragAndDrop.IsValidDropTarget | src/hooks/useDragAndDrop.ts:64-85 | the collecting loop and the `indexOf` comparison compute `ValidDrop`, which is false whenever either id is empty |
| DragAndDrop.ValidDropIsStrictOrder | src/hooks/useDragAndDrop.ts:78-82 | forward-only is irreflexive, asymmetric and transitive; an unrendered target is never valid; an unrendered non-empty source may drop on any rendered column |
| DragAndDrop.ValidDropByPosition | src/hooks/useDragAndDrop.ts:78-82 | with distinct rendered ids, a drop between two rendered columns is valid iff the target comes later in document order |
| DragAndDrop.LastHit | src/hooks/useDragAndDrop.ts:174-197 | none iff no column box holds the clone's centre, edges included; otherwise a column holding it with none after it holding it |
| DragAndDrop.FindTargetColumn | src/hooks/useDragAndDrop.ts:174-197 | the scan that keeps the last match returns `LastHit` |
| DragAndDrop.PastThreshold | src/hooks/useDragAndDrop.ts:208-211 | false iff the pointer is within 5 px of the press point on both axes |
| DragAndDrop.ClampToBoundary | src/hooks/useDragAndDrop.ts:254-272 | the right and bottom edges always fit; the left and top edges fit when the card does, and then the position is the nearest inside; otherwise the card is aligned right or bottom; `hitBoundary` iff the unclamped box crossed an edge |
| DragAndDrop.ScrollStep | src/hooks/useDragAndDrop.ts:281-305 | the net change is +10, -10 or 0; +10 iff the axis overflows and the pointer is within 50 px of the far edge only; -10 likewise at the near edge |
| DragAndDrop.ScrollBox.AutoScroll | src/hooks/useDragAndDrop.ts:281-305 | `scrollTop` and `scrollLeft` change by `ScrollStep` of their axis |
| DragAndDrop.DragSession.constructor | src/hooks/useDragAndDrop.ts:55-59 | no card, not started, press point (0, 0), no target, no clone, no highlight |
| DragAndDrop.DragSession.UpdateColumnHighlights | src/hooks/useDragAndDrop.ts:91-137 | clears every highlight, then highlights the target iff it is non-empty, is not the source, a session exists and a rendered column has it; valid iff `ValidDrop` from the card's column |
| DragAndDrop.DragSession.CardMouseDown | src/hooks/useDragAndDrop.ts:143-168 | ignores every button but 0; otherwise records the press point, the grab offset `client − rect`, and the card's own column as target, clears highlights and arms the session |
| DragAndDrop.DragSession.MouseMove | src/hooks/useDragAndDrop.ts:204-320 | the session starts at most once, past the threshold; the clone is made then if the card element exists; while dragging it goes to the pointer minus the grab offset, or with a boundary to that position clamped to it (right/bottom-aligned when wider/taller), with the shadow kept as it was when there is no boundary, scrolls the boundary, retargets to `LastHit` and re-highlights; an armed session within the threshold stays armed |
| DragAndDrop.DragSession.FollowPointer | src/hooks/useDragAndDrop.ts:245-317 | the clone keeps its size and goes to the pointer minus the grab offset, keeping its shadow, when there is no boundary; with a boundary it goes to that position clamped into the boundary (aligned with the right/bottom edge when wider/taller), so its far edges stay inside and its near edges too when it fits, and the shadow shows iff the unclamped box crossed an edge; both scroll offsets move by `ScrollStep`; the target becomes `LastHit` and highlights follow; the session fields are unchanged |
| DragAndDrop.DragSession.MouseUp | src/hooks/useDragAndDrop.ts:327-373 | a click only drops the session; a drag removes the clone and highlights, and moves the card iff the target is non-empty, differs from the source and is valid; the session always ends idle |
| DragAndDrop.Click | src/hooks/useDragAndDrop.ts:204-335 | a press, any moves within the threshold and a release never move a card, never show a clone, and end idle |
| DragAndDrop.DragAcross | src/hooks/useDragAndDrop.ts:327-356 | on three side-by-side columns, dragging a card over another column moves it iff that column is to the right, with the right arguments |
| Tabs.ActiveTabIndex | src/components/Tabs/index.tsx:31 | the first tab with the active id, or tab 0 when none has it; in range for a non-empty list |
| Tabs.HandleKeyDown | src/components/Tabs/index.tsx:39-58 | with at least two tabs, "l"/"L" selects the next tab and "h"/"H" the previous one, wrapping at both ends; otherwise `onTabChange` is not called |
| Tabs.NextIndex | src/components/Tabs/index.tsx:42-50 | `(i + 1) % n` is the next index, wrapping from the last to 0, and `(i - 1 + n) % n` the previous one, wrapping from 0 to the last; always in range |
| Tabs.NextThenPrevious | src/components/Tabs/index.tsx:44-47 | with distinct ids, "l" then "h" (or the reverse) returns to the active tab |
| Tabs.PressNextRepeatedly | src/components/Tabs/index.tsx:44-45 | with distinct ids, k ≤ n presses of "l" from tab i reach tab i + k, wrapping past the last tab to the first |
| Tabs.FullCycle | src/components/Tabs/index.tsx:44-45 | n presses of "l" on n tabs return to the active tab |
| Calendar.BuildWeeks | src/hooks/useCalendar.ts:35-126 | the three push loops, the marking pass and the chunking loop yield 6 weeks of 7 cells, cell `7w+d` being `Cell(7w+d)` |
| Calendar.DatesConsecutive | src/hooks/useCalendar.ts:45-96 | cell k is dated k days after cell 0, and its weekday is k mod 7, so the grid starts on a Sunday |
| Calendar.ColumnsAreWeekdays | src/hooks/useCalendar.ts:45-96 | column d of every week is weekday d |
| Calendar.LeadingCells | src/hooks/useCalendar.ts:45-62 | exactly the first `firstDayOfMonth` cells precede the month, numbered consecutively up to `daysInPrevMonth` |
| Calendar.MonthCells | src/hooks/useCalendar.ts:64-74 | a cell is a current-month cell iff its date is in the month; its day number is in 1..`daysInMonth` and matches its date |
| Calendar.TrailingCells | src/hooks/useCalendar.ts:76-96 | the trailing cells are numbered from 1 up to 42 − `firstDayOfMonth` − `daysInMonth`, dated after the month |
| Calendar.TodayOnce | src/hooks/useCalendar.ts:47-96 | exactly the cell dated today is `isToday` |
| Calendar.ActiveWeekIsOneRow | src/hooks/useCalendar.ts:98-119 | when the focused date is in the month, the marked cells are exactly one whole row, the focused date's |
| Calendar.WeekIndexAsComputed | src/hooks/useCalendar.ts:59-93 | `weekIndex` is 0, `(k+1)/7` or `(k+firstDay)/7` by segment, and differs from the row on the last column of the month's own rows and, for next-month cells, exactly when the column plus `firstDayOfMonth` reaches 7 |
| Pomodoro.TickTimer | src/modules/Pomodoro/index.tsx:64-73 | a running timer with time left loses exactly one second; a running timer at or below zero stops, keeping its time; a stopped one is unchanged; never goes negative from non-negative |
| Pomodoro.TickAll | src/modules/Pomodoro/index.tsx:61-77 | each timer ticks independently of the others |
| Pomodoro.TicksCountDown | src/modules/Pomodoro/index.tsx:59-81 | after n ticks a running timer at t ≥ 0 shows max(t − n, 0) and runs iff n ≤ t; a stopped one is unchanged |
| Pomodoro.PomodoroPage.constructor | src/modules/Pomodoro/index.tsx:24-35 | 1500/300/900 seconds, all stopped, Pomodoro tab selected |
| Pomodoro.PomodoroPage.Tick | src/modules/Pomodoro/index.tsx:59-81 | the loop over the three timer keys yields `TickAll` of the old clock; the tab is unchanged |
| Pomodoro.PomodoroPage.HandleKeyDown | src/modules/Pomodoro/index.tsx:37-50 | "r"/"R" restores 1500/300/900 and stops all timers; any other key changes nothing |
| Pomodoro.PomodoroPage.ToggleStart | src/modules/Pomodoro/index.tsx:126-131 | flips only the selected timer's running flag |
| Pomodoro.PomodoroPage.SelectTab | src/modules/Pomodoro/index.tsx:120 | selects the given timer's tab |
| TagColors.CodeUnits | src/utils/utils.ts:5 | `split("")` yields one code unit per BMP character, and otherwise a high surrogate (D800-DBFF) and a low surrogate (DC00-DFFF) that decode back to the character |
| TagColors.HashConcat | src/utils/utils.ts:5 | the hash of a concatenation is the sum of the hashes |
| TagColors.HashPermutation | src/utils/utils.ts:5 | tags that are rearrangements of each other hash alike |
| TagColors.Hue | src/utils/utils.ts:7 | the hue lies in [0, 360), and the empty tag has hue 0 |
| TagColors.GetTagColors | src/utils/utils.ts:1-21 | the background is `hsl(hue, 70%, 85%)`, and the text is always `hsl(hue, 70%, 20%)` because 85 > 70 |
| TagColors.SameColorsIffSameHue | src/utils/utils.ts:7-20 | two tags get the same colours iff their hashes agree modulo 360 |
| TagColors.PermutedTagsSameColors | src/utils/utils.ts:5-20 | rearranged tags get the same colours |
| TagColors.EmptyTagColors | src/utils/utils.ts:5-20 | the empty tag gets `hsl(0, 70%, 85%)` on `hsl(0, 70%, 20%)` |

## Left out

- **Loading and error reducers.** `setColumnsLoading`, `setCardsLoading`, `setLoading` and the error setters only store a flag or a message, so they are left out. The Redux action plumbing and the `localStorage` middleware (I/O) are left out too.
- **Non-deterministic inputs.** `uuidv4()` and `new Date().toISOString()` become the parameters `freshId` and `now`. Timestamps are opaque strings.
- **Thunks.CreateCardInColumn:** an omitted `description` or `tags` is modelled as a given string or list, not as an absent field. Images are modelled as strings, not as `File` objects.
- **KanbanTypes.AssignBoard, KanbanTypes.AssignColumn, KanbanTypes.AssignCard:** a payload field is either carried with a value or not carried. `Object.assign` also copies a carried `undefined`, which clears an optional field such as `dueDate`, `subTasks`, `images`, `links`, `createdAt` or `updatedAt`. That clearing is not modelled: the changes can only set or keep a field.
- **CardSlice.ToggledSubtask:** the index is an integer. A fractional or `NaN` index from JavaScript is not modelled.
- **Thunks.InsertAt, Thunks.MoveCardBetweenColumns:** `destinationIndex` is an integer. A fractional or `NaN` index, which `slice` would truncate or treat as 0, is not modelled.
- **The drag hook's DOM side effects.** The clone's inline styles, its rotation and the source card's styling are left out. So are `console.log`, `preventDefault` and the registration of window listeners.
  - Bounding boxes are integers.
  - The clone's box is taken to be the card's box. The rotation enlarges the real bounding box.
  - Page and client coordinates are taken to coincide.
  - The browser's clamping of `scrollTop`/`scrollLeft` to the scrollable range is not modelled.
- **DragAndDrop.CardMouseDown:** a card without a `columnId` is modelled as the empty string, which the hook treats the same way as a missing one.
- **Drag behaviour the hook does not have.** Several drag features are not in the code, so they are not modelled:
  - touch handlers, keyboard commit/cancel, window-blur cleanup;
  - a timer-driven auto-scroll, `aria-live`/`aria-dropeffect` announcements, a highlight debounce;
  - a hit-test tolerance margin or a column-content fallback, and an `allowBackwardMovement` switch.
  
  The model follows the code: hit-testing uses the exact column box, auto-scroll steps once per pointer move using the pointer's position, and validity is always forward-only.
- **Calendar navigation.** `nextMonth`, `prevMonth`, `nextYear`, `prevYear`, `nextWeek`, `prevWeek` and `handleClickOnToday` are left out, and so is `toLocaleString`. They are `Date` arithmetic, which the day ordinals abstract away. Month lengths are inputs limited to 28..31.
- **Pomodoro scheduling.** The `setInterval` scheduling is left to the caller, who calls `Tick` once per second. The car animation, `timeFormatting` and the rendering are left out.
- **Pomodoro.PomodoroPage.Tick:** the stop of a finished timer takes effect within the same tick. In React it is a queued state update that lands before the next tick, so the sequence of tick results is the same.
- **Tabs.HandleKeyDown and Pomodoro.PomodoroPage.HandleKeyDown:** `key.toLowerCase()` is modelled for the ASCII letters only.
- **Tabs.HandleKeyDown:** the focus handling and the rendering of the tab panels are left out.
