/**
 * The card drag-and-drop hook (src/hooks/useDragAndDrop.ts) over abstract geometry.
 *
 * The rendered `[data-column-id]` elements are a sequence of `ColumnBox`es in
 * document order; bounding boxes are integer rectangles. The hook's refs and its
 * `draggingCard` state are the fields of `DragSession`; the DOM clone that follows
 * the pointer is the session's `clone`, and the highlight classes on columns are
 * its `highlight`. The scrollable boundary element is a `ScrollBox`. The
 * `onCardMove` callback is the value `MouseUp` returns.
 */
module DragAndDrop {
  import opened Wrappers
  import opened Seqs

  /** Pixels the pointer must travel along one axis before a press becomes a drag. */
  const THRESHOLD: int := 5
  /** Distance from a boundary edge within which the pointer scrolls the boundary. */
  const SCROLL_MARGIN: int := 50
  /** Pixels scrolled per pointer move near an edge. */
  const SCROLL_SPEED: int := 10

  datatype Point = Point(x: int, y: int)

  /** A bounding client rectangle. */
  datatype Rect = Rect(left: int, top: int, width: int, height: int) {
    function Right(): int { left + width }
    function Bottom(): int { top + height }
  }

  /** One rendered `[data-column-id]` element: the attribute's value and its bounding box. */
  datatype ColumnBox = ColumnBox(id: string, rect: Rect)

  /** The `draggingCard` state. */
  datatype DragCard = DragCard(id: string, columnId: string, initialX: int, initialY: int, offsetX: int, offsetY: int)

  /** One call `onCardMove(cardId, sourceColumnId, targetColumnId)`. */
  datatype CardMove = CardMove(cardId: string, sourceColumnId: string, targetColumnId: string)

  /** The one column carrying the valid (`valid`) or the invalid drop-target class. */
  datatype Highlight = Highlight(columnId: string, valid: bool)

  /** The clone following the pointer: where it is and whether it shows the boundary feedback shadow. */
  datatype Clone = Clone(rect: Rect, boundaryFeedback: bool)

  /** The gesture states: no session, pressed but not yet moved far enough, dragging. */
  datatype Phase = Idle | Armed | Dragging

  // ----- column order and the forward-only rule -----

  /** The non-empty `data-column-id` values in document order, as `isValidDropTarget` collects them. */
  function RenderedIds(cols: seq<ColumnBox>): (r: seq<string>)
    ensures forall x :: x in r <==> x != "" && exists i :: 0 <= i < |cols| && cols[i].id == x
  {
    if cols == [] then []
    else
      var init := cols[..|cols| - 1];
      var last := cols[|cols| - 1];
      assert forall i :: 0 <= i < |init| ==> init[i] == cols[i];
      RenderedIds(init) + if last.id != "" then [last.id] else []
  }

  /**
   * The forward-only rule: both ids are non-empty, the target is a rendered column,
   * and the source either is not rendered or comes first in document order.
   */
  predicate ValidDrop(cols: seq<ColumnBox>, source: string, target: string) {
    var ids := RenderedIds(cols);
    source != "" && target != "" && target in ids && (source !in ids || IndexOf(ids, source) < IndexOf(ids, target))
  }

  /**
   * `isValidDropTarget`: collects the rendered column ids, then compares the
   * `indexOf` of target and source.
   */
  method IsValidDropTarget(cols: seq<ColumnBox>, sourceColumnId: string, targetColumnId: string) returns (valid: bool)
    ensures valid == ValidDrop(cols, sourceColumnId, targetColumnId)
    ensures sourceColumnId == "" || targetColumnId == "" ==> !valid
  {
    if sourceColumnId == "" || targetColumnId == "" {
      return false;
    }
    var columnIds: seq<string> := [];
    for i := 0 to |cols|
      invariant columnIds == RenderedIds(cols[..i])
    {
      assert cols[..i + 1][..i] == cols[..i];
      var colId := cols[i].id;
      if colId != "" {
        columnIds := columnIds + [colId];
      }
    }
    assert cols[..|cols|] == cols;
    var sourceIndex := IndexOf(columnIds, sourceColumnId);
    var targetIndex := IndexOf(columnIds, targetColumnId);
    valid := targetIndex > sourceIndex;
  }

  /**
   * On rendered columns, forward-only is a strict order: no column is a valid
   * target for itself, no two columns accept drops from each other, and validity
   * chains; an unrendered target is never valid and an unrendered source may drop
   * on any rendered column.
   */
  lemma ValidDropIsStrictOrder(cols: seq<ColumnBox>, a: string, b: string, c: string)
    ensures !ValidDrop(cols, a, a)
    ensures ValidDrop(cols, a, b) ==> !ValidDrop(cols, b, a)
    ensures ValidDrop(cols, a, b) && ValidDrop(cols, b, c) ==> ValidDrop(cols, a, c)
    ensures b !in RenderedIds(cols) ==> !ValidDrop(cols, a, b)
    ensures a != "" && a !in RenderedIds(cols) && b in RenderedIds(cols) ==> ValidDrop(cols, a, b)
  {
  }

  /**
   * When every rendered id is distinct, a drop between two rendered columns is valid
   * exactly when the target is rendered after the source.
   */
  lemma ValidDropByPosition(cols: seq<ColumnBox>, i: int, j: int)
    requires 0 <= i < |cols| && 0 <= j < |cols|
    requires cols[i].id != "" && cols[j].id != ""
    requires forall p, q :: 0 <= p < q < |cols| ==> cols[p].id != cols[q].id
    ensures ValidDrop(cols, cols[i].id, cols[j].id) <==> i < j
  {
    RenderedIdPosition(cols, i);
    RenderedIdPosition(cols, j);
    if i < j {
      RenderedIdsGrow(cols, i, j);
    } else if j < i {
      RenderedIdsGrow(cols, j, i);
    }
  }

  /** With distinct ids, a column's id sits in the rendered ids right after those of the columns before it. */
  lemma RenderedIdPosition(cols: seq<ColumnBox>, k: int)
    requires 0 <= k < |cols| && cols[k].id != ""
    requires forall p, q :: 0 <= p < q < |cols| ==> cols[p].id != cols[q].id
    ensures IndexOf(RenderedIds(cols), cols[k].id) == |RenderedIds(cols[..k])|
  {
    var ids := RenderedIds(cols);
    var pre := RenderedIds(cols[..k]);
    assert cols[..k + 1][..k] == cols[..k];
    RenderedIdsPrefix(cols, k + 1);
    var idsK := RenderedIds(cols[..k + 1]);
    assert idsK == pre + [cols[k].id];
    assert ids[|pre|] == idsK[|pre|] == cols[k].id;
    assert ids[..|pre|] == idsK[..|pre|] == pre;
    assert cols[k].id !in pre by {
      assert forall p :: 0 <= p < k ==> cols[..k][p].id != cols[k].id;
    }
    IndexOfFirst(ids, |pre|);
  }

  /** A rendered column between two prefixes makes the longer prefix render strictly more ids. */
  lemma RenderedIdsGrow(cols: seq<ColumnBox>, i: int, j: int)
    requires 0 <= i < j <= |cols| && cols[i].id != ""
    ensures |RenderedIds(cols[..i])| < |RenderedIds(cols[..j])|
  {
    assert cols[..i + 1][..i] == cols[..i];
    assert |RenderedIds(cols[..i + 1])| == |RenderedIds(cols[..i])| + 1;
    assert cols[..j][..i + 1] == cols[..i + 1];
    RenderedIdsPrefix(cols[..j], i + 1);
  }

  /** The rendered ids of a prefix are a prefix of the rendered ids. */
  lemma {:induction false} RenderedIdsPrefix(cols: seq<ColumnBox>, n: int)
    requires 0 <= n <= |cols|
    ensures var ids := RenderedIds(cols); var pre := RenderedIds(cols[..n]);
      |pre| <= |ids| && ids[..|pre|] == pre
    decreases |cols|
  {
    if n < |cols| {
      var init := cols[..|cols| - 1];
      assert init[..n] == cols[..n];
      RenderedIdsPrefix(init, n);
    } else {
      assert cols[..n] == cols;
    }
  }

  // ----- hit-testing -----

  /**
   * Whether the centre of `clone` lies in `r`, edges included; coordinates are
   * doubled so that the half-width of the centre stays an integer.
   */
  predicate ContainsCentre(r: Rect, clone: Rect) {
    && 2 * r.left <= 2 * clone.left + clone.width <= 2 * r.Right()
    && 2 * r.top <= 2 * clone.top + clone.height <= 2 * r.Bottom()
  }

  /** The id of the last column (in document order) whose box holds the centre of `clone`, if any. */
  function LastHit(cols: seq<ColumnBox>, clone: Rect): (r: Option<string>)
    ensures r.None? <==> forall i :: 0 <= i < |cols| ==> !ContainsCentre(cols[i].rect, clone)
    ensures r.Some? ==> exists i :: 0 <= i < |cols| && ContainsCentre(cols[i].rect, clone) && cols[i].id == r.value
                          && forall j :: i < j < |cols| ==> !ContainsCentre(cols[j].rect, clone)
  {
    if cols == [] then None
    else
      var last := cols[|cols| - 1];
      if ContainsCentre(last.rect, clone) then Some(last.id)
      else
        var r := LastHit(cols[..|cols| - 1], clone);
        assert forall i :: 0 <= i < |cols| - 1 ==> cols[..|cols| - 1][i] == cols[i];
        r
  }

  /** `findTargetColumn`: scans every column, keeping the last one that holds the clone's centre. */
  method FindTargetColumn(cols: seq<ColumnBox>, clone: Rect) returns (targetColumnId: Option<string>)
    ensures targetColumnId == LastHit(cols, clone)
  {
    targetColumnId := None;
    for i := 0 to |cols|
      invariant targetColumnId == LastHit(cols[..i], clone)
    {
      assert cols[..i + 1][..i] == cols[..i];
      if ContainsCentre(cols[i].rect, clone) {
        targetColumnId := Some(cols[i].id);
      }
    }
    assert cols[..|cols|] == cols;
  }

  // ----- movement threshold, boundary clamp, auto-scroll -----

  function Abs(x: int): int { if x < 0 then -x else x }

  /** Whether the pointer has left the 11x11 box around the press point (the 5-px threshold). */
  function PastThreshold(down: Point, p: Point): (r: bool)
    ensures !r <==> down.x - THRESHOLD <= p.x <= down.x + THRESHOLD && down.y - THRESHOLD <= p.y <= down.y + THRESHOLD
  {
    Abs(p.x - down.x) > THRESHOLD || Abs(p.y - down.y) > THRESHOLD
  }

  /** `x` brought into `[lo, hi]`. */
  function Clamp(x: int, lo: int, hi: int): int
    requires lo <= hi
  {
    if x < lo then lo else if x > hi then hi else x
  }

  /**
   * The four clamps of `handleMouseMove`, applied in the hook's order. The far
   * edges always hold; the near edges hold whenever the card fits, and then the
   * position is the nearest one inside the boundary; a card wider (taller) than
   * the boundary is aligned with its right (bottom) edge. `hitBoundary` reports
   * whether any clamp fired.
   */
  method ClampToBoundary(left: int, top: int, width: int, height: int, boundary: Rect)
    returns (newLeft: int, newTop: int, hitBoundary: bool)
    ensures newLeft + width <= boundary.Right() && newTop + height <= boundary.Bottom()
    ensures width <= boundary.width ==> boundary.left <= newLeft && newLeft == Clamp(left, boundary.left, boundary.Right() - width)
    ensures height <= boundary.height ==> boundary.top <= newTop && newTop == Clamp(top, boundary.top, boundary.Bottom() - height)
    ensures width > boundary.width ==> newLeft == boundary.Right() - width
    ensures height > boundary.height ==> newTop == boundary.Bottom() - height
    ensures hitBoundary <==> (left < boundary.left || left + width > boundary.Right()
                              || top < boundary.top || top + height > boundary.Bottom())
  {
    newLeft, newTop := left, top;
    hitBoundary := false;
    if newLeft < boundary.left {
      newLeft := boundary.left;
      hitBoundary := true;
    }
    if newLeft + width > boundary.Right() {
      newLeft := boundary.Right() - width;
      hitBoundary := true;
    }
    if newTop < boundary.top {
      newTop := boundary.top;
      hitBoundary := true;
    }
    if newTop + height > boundary.Bottom() {
      newTop := boundary.Bottom() - height;
      hitBoundary := true;
    }
  }

  /**
   * The net scroll of one pointer move along one axis: +SPEED past the far margin,
   * -SPEED inside the near margin (the two cancel when both hold), and nothing
   * when the content does not overflow along that axis.
   */
  function ScrollStep(pointer: int, low: int, high: int, overflows: bool): (d: int)
    ensures d == 0 || d == SCROLL_SPEED || d == -SCROLL_SPEED
    ensures d == SCROLL_SPEED <==> overflows && pointer > high - SCROLL_MARGIN && !(pointer < low + SCROLL_MARGIN)
    ensures d == -SCROLL_SPEED <==> overflows && pointer < low + SCROLL_MARGIN && !(pointer > high - SCROLL_MARGIN)
  {
    if !overflows then 0
    else
      (if pointer > high - SCROLL_MARGIN then SCROLL_SPEED else 0) - (if pointer < low + SCROLL_MARGIN then SCROLL_SPEED else 0)
  }

  /** The scrollable element bounding the drag (`boundaryRef.current`). */
  class ScrollBox {
    const rect: Rect
    const scrollHeight: int
    const clientHeight: int
    const scrollWidth: int
    const clientWidth: int
    var scrollTop: int
    var scrollLeft: int

    constructor (rect: Rect, scrollHeight: int, clientHeight: int, scrollWidth: int, clientWidth: int)
      ensures this.rect == rect && this.scrollHeight == scrollHeight && this.clientHeight == clientHeight
      ensures this.scrollWidth == scrollWidth && this.clientWidth == clientWidth
      ensures scrollTop == 0 && scrollLeft == 0
    {
      this.rect := rect;
      this.scrollHeight, this.clientHeight := scrollHeight, clientHeight;
      this.scrollWidth, this.clientWidth := scrollWidth, clientWidth;
      scrollTop, scrollLeft := 0, 0;
    }

    /** The auto-scroll step of `handleMouseMove` for a pointer at `p`. */
    method AutoScroll(p: Point)
      modifies this
      ensures scrollTop == old(scrollTop) + ScrollStep(p.y, rect.top, rect.Bottom(), scrollHeight > clientHeight)
      ensures scrollLeft == old(scrollLeft) + ScrollStep(p.x, rect.left, rect.Right(), scrollWidth > clientWidth)
    {
      if scrollHeight > clientHeight {
        if p.y > rect.Bottom() - SCROLL_MARGIN {
          scrollTop := scrollTop + SCROLL_SPEED;
        }
        if p.y < rect.top + SCROLL_MARGIN {
          scrollTop := scrollTop - SCROLL_SPEED;
        }
      }
      if scrollWidth > clientWidth {
        if p.x > rect.Right() - SCROLL_MARGIN {
          scrollLeft := scrollLeft + SCROLL_SPEED;
        }
        if p.x < rect.left + SCROLL_MARGIN {
          scrollLeft := scrollLeft - SCROLL_SPEED;
        }
      }
    }
  }

  // ----- the session -----

  /** What `highlight` must be after `updateColumnHighlights(target, isSourceColumn)`. */
  ghost predicate HighlightAfter(h: Option<Highlight>, cols: seq<ColumnBox>, card: Option<DragCard>,
                                 target: Option<string>, isSourceColumn: bool)
  {
    && (h.Some? <==> target.Some? && target.value != "" && !isSourceColumn && card.Some?
                     && exists i :: 0 <= i < |cols| && cols[i].id == target.value)
    && (h.Some? ==> h.value == Highlight(target.value, ValidDrop(cols, card.value.columnId, target.value)))
  }

  /** The state the hook keeps between events: its refs and the `draggingCard` state. */
  class DragSession {
    var draggingCard: Option<DragCard>
    var dragStarted: bool
    var mouseDownPosition: Point
    var currentTargetColumn: Option<string>
    var clone: Option<Clone>
    var highlight: Option<Highlight>

    /** The hook as first rendered. */
    constructor ()
      ensures draggingCard.None? && !dragStarted && mouseDownPosition == Point(0, 0)
      ensures currentTargetColumn.None? && clone.None? && highlight.None?
    {
      draggingCard := None;
      dragStarted := false;
      mouseDownPosition := Point(0, 0);
      currentTargetColumn := None;
      clone := None;
      highlight := None;
    }

    function Phase(): Phase
      reads this
    {
      if draggingCard.None? then Idle else if !dragStarted then Armed else Dragging
    }

    /** The hook's `isDragging` output. */
    predicate IsDragging()
      reads this
    {
      draggingCard.Some?
    }

    /**
     * `updateColumnHighlights`: clears every highlight, then marks the target column
     * valid or invalid when there is a non-empty target other than the source, a
     * session, and a rendered column with that id.
     */
    method UpdateColumnHighlights(cols: seq<ColumnBox>, targetColumnId: Option<string>, isSourceColumn: bool)
      modifies this`highlight
      ensures HighlightAfter(highlight, cols, draggingCard, targetColumnId, isSourceColumn)
    {
      highlight := None;
      if targetColumnId.Some? && targetColumnId.value != "" && !isSourceColumn && draggingCard.Some? {
        var target := targetColumnId.value;
        var found := false;
        for i := 0 to |cols|
          invariant found <==> exists k :: 0 <= k < i && cols[k].id == target
        {
          if cols[i].id == target {
            found := true;
          }
        }
        if found {
          var isValid := IsValidDropTarget(cols, draggingCard.value.columnId, target);
          highlight := Some(Highlight(target, isValid));
        }
      }
    }

    /**
     * `handleCardMouseDown`: ignores every button but the primary one; otherwise
     * records the press point and the grab offset inside the card, arms a new
     * session whose target is the card's own column, and clears the highlights.
     * A missing `columnId` is the empty string.
     */
    method CardMouseDown(button: int, pointer: Point, cardRect: Rect, cardId: string, cardColumnId: string)
      modifies this
      ensures button != 0 ==> unchanged(this)
      ensures button == 0 ==>
        && draggingCard == Some(DragCard(cardId, cardColumnId, pointer.x, pointer.y,
                                         pointer.x - cardRect.left, pointer.y - cardRect.top))
        && mouseDownPosition == pointer
        && !dragStarted
        && currentTargetColumn == (if cardColumnId == "" then None else Some(cardColumnId))
        && highlight.None?
        && clone == old(clone)
        && Phase() == Armed
    {
      if button != 0 {
        return;
      }
      mouseDownPosition := pointer;
      dragStarted := false;
      currentTargetColumn := if cardColumnId == "" then None else Some(cardColumnId);
      highlight := None;
      draggingCard := Some(DragCard(cardId, cardColumnId, pointer.x, pointer.y,
                                    pointer.x - cardRect.left, pointer.y - cardRect.top));
    }

    /**
     * `handleMouseMove`. A session that moves past the threshold starts dragging, once;
     * the clone is made then, at the card's box, if the card element is found
     * (`cardElement`). While dragging with a clone, the clone follows the pointer
     * at the grab offset, clamped to the boundary when there is one; the boundary
     * auto-scrolls; the target becomes the last column holding the clone's centre,
     * and the highlights follow it. `cloned` reports whether a clone was made.
     */
    method MouseMove(pointer: Point, cardElement: Option<Rect>, cols: seq<ColumnBox>, boundary: ScrollBox?)
      returns (cloned: bool)
      modifies this, boundary
      ensures draggingCard == old(draggingCard) && mouseDownPosition == old(mouseDownPosition)
      ensures old(draggingCard).None? ==> unchanged(this) && !cloned
      ensures old(draggingCard).Some? ==> dragStarted == (old(dragStarted) || PastThreshold(mouseDownPosition, pointer))
      ensures cloned <==> old(draggingCard).Some? && !old(dragStarted) && PastThreshold(mouseDownPosition, pointer) && cardElement.Some?
      ensures var moving := draggingCard.Some? && if old(dragStarted) then old(clone).Some? else cloned;
        && (!moving ==> clone == old(clone) && currentTargetColumn == old(currentTargetColumn) && highlight == old(highlight))
        && (!moving && boundary != null ==> boundary.scrollTop == old(boundary.scrollTop) && boundary.scrollLeft == old(boundary.scrollLeft))
        && (moving ==>
              var card := draggingCard.value;
              var size := if cloned then cardElement.value else old(clone).value.rect;
              var left := pointer.x - card.offsetX;
              var top := pointer.y - card.offsetY;
              && clone.Some? && clone.value.rect.width == size.width && clone.value.rect.height == size.height
              && currentTargetColumn == LastHit(cols, clone.value.rect)
              && HighlightAfter(highlight, cols, draggingCard, currentTargetColumn, currentTargetColumn == Some(card.columnId))
              && (boundary == null ==>
                    && clone.value.rect.left == left && clone.value.rect.top == top
                    && clone.value.boundaryFeedback == (!cloned && old(clone).value.boundaryFeedback))
              && (boundary != null ==>
                    var b := boundary.rect;
                    && clone.value.rect.Right() <= b.Right() && clone.value.rect.Bottom() <= b.Bottom()
                    && clone.value.rect.left == (if size.width <= b.width then Clamp(left, b.left, b.Right() - size.width) else b.Right() - size.width)
                    && clone.value.rect.top == (if size.height <= b.height then Clamp(top, b.top, b.Bottom() - size.height) else b.Bottom() - size.height)
                    && (size.width <= b.width ==> b.left <= clone.value.rect.left)
                    && (size.height <= b.height ==> b.top <= clone.value.rect.top)
                    && (clone.value.boundaryFeedback <==>
                          left < b.left || left + size.width > b.Right() || top < b.top || top + size.height > b.Bottom())
                    && boundary.scrollTop == old(boundary.scrollTop) + ScrollStep(pointer.y, b.top, b.Bottom(), boundary.scrollHeight > boundary.clientHeight)
                    && boundary.scrollLeft == old(boundary.scrollLeft) + ScrollStep(pointer.x, b.left, b.Right(), boundary.scrollWidth > boundary.clientWidth)))
      ensures old(Phase()) == Armed && !PastThreshold(mouseDownPosition, pointer) ==> Phase() == Armed
      ensures old(Phase()) != Idle ==> Phase() != Idle
    {
      cloned := false;
      if draggingCard.None? {
        return;
      }
      var card := draggingCard.value;
      var isDragging := PastThreshold(mouseDownPosition, pointer);
      if isDragging && !dragStarted {
        dragStarted := true;
        if cardElement.None? {
          return;
        }
        clone := Some(Clone(cardElement.value, false));
        cloned := true;
      }
      if dragStarted && clone.Some? {
        FollowPointer(pointer, cols, boundary);
      }
    }

    /**
     * The dragging branch of `handleMouseMove`: moves the clone to the pointer at the
     * grab offset, clamped to the boundary when there is one, auto-scrolls the
     * boundary, retargets to the last column holding the clone's centre and updates
     * the highlights.
     */
    method FollowPointer(pointer: Point, cols: seq<ColumnBox>, boundary: ScrollBox?)
      requires draggingCard.Some? && clone.Some?
      modifies this, boundary
      ensures draggingCard == old(draggingCard) && dragStarted == old(dragStarted) && mouseDownPosition == old(mouseDownPosition)
      ensures var card := draggingCard.value;
        var size := old(clone).value.rect;
        var left := pointer.x - card.offsetX;
        var top := pointer.y - card.offsetY;
        && clone.Some? && clone.value.rect.width == size.width && clone.value.rect.height == size.height
        && currentTargetColumn == LastHit(cols, clone.value.rect)
        && HighlightAfter(highlight, cols, draggingCard, currentTargetColumn, currentTargetColumn == Some(card.columnId))
        && (boundary == null ==>
              && clone.value.rect.left == left && clone.value.rect.top == top
              && clone.value.boundaryFeedback == old(clone).value.boundaryFeedback)
        && (boundary != null ==>
              var b := boundary.rect;
              && clone.value.rect.Right() <= b.Right() && clone.value.rect.Bottom() <= b.Bottom()
              && clone.value.rect.left == (if size.width <= b.width then Clamp(left, b.left, b.Right() - size.width) else b.Right() - size.width)
              && clone.value.rect.top == (if size.height <= b.height then Clamp(top, b.top, b.Bottom() - size.height) else b.Bottom() - size.height)
              && (size.width <= b.width ==> b.left <= clone.value.rect.left)
              && (size.height <= b.height ==> b.top <= clone.value.rect.top)
              && (clone.value.boundaryFeedback <==>
                    left < b.left || left + size.width > b.Right() || top < b.top || top + size.height > b.Bottom())
              && boundary.scrollTop == old(boundary.scrollTop) + ScrollStep(pointer.y, b.top, b.Bottom(), boundary.scrollHeight > boundary.clientHeight)
              && boundary.scrollLeft == old(boundary.scrollLeft) + ScrollStep(pointer.x, b.left, b.Right(), boundary.scrollWidth > boundary.clientWidth))
    {
      var card := draggingCard.value;
      var size := clone.value.rect;
      var newLeft := pointer.x - card.offsetX;
      var newTop := pointer.y - card.offsetY;
      var feedback := clone.value.boundaryFeedback;
      if boundary != null {
        newLeft, newTop, feedback := ClampToBoundary(newLeft, newTop, size.width, size.height, boundary.rect);
        boundary.AutoScroll(pointer);
      }
      clone := Some(Clone(Rect(newLeft, newTop, size.width, size.height), feedback));
      var targetColumnId := FindTargetColumn(cols, clone.value.rect);
      var isSourceColumn := targetColumnId == Some(card.columnId);
      currentTargetColumn := targetColumnId;
      UpdateColumnHighlights(cols, targetColumnId, isSourceColumn);
    }

    /**
     * `handleMouseUp`. Without a session it does nothing. A session that never
     * started dragging was a click: it is dropped and nothing moves. Otherwise the
     * clone is removed, the highlights cleared, and `onCardMove(card, source, target)`
     * is called once exactly when the last target is non-empty, differs from the
     * source and is a valid drop target; then the session is reset.
     */
    method MouseUp(cols: seq<ColumnBox>) returns (moved: Option<CardMove>)
      modifies this
      ensures old(draggingCard).None? ==> unchanged(this) && moved.None?
      ensures old(draggingCard).Some? && !old(dragStarted) ==>
        && moved.None? && draggingCard.None? && !dragStarted
        && clone == old(clone) && highlight == old(highlight)
        && currentTargetColumn == old(currentTargetColumn) && mouseDownPosition == old(mouseDownPosition)
      ensures old(draggingCard).Some? && old(dragStarted) ==>
        && draggingCard.None? && !dragStarted && currentTargetColumn.None?
        && clone.None? && highlight.None? && mouseDownPosition == old(mouseDownPosition)
      ensures moved.Some? <==>
        && old(draggingCard).Some? && old(dragStarted) && old(currentTargetColumn).Some?
        && old(currentTargetColumn).value != ""
        && old(currentTargetColumn).value != old(draggingCard).value.columnId
        && ValidDrop(cols, old(draggingCard).value.columnId, old(currentTargetColumn).value)
      ensures moved.Some? ==>
        moved.value == CardMove(old(draggingCard).value.id, old(draggingCard).value.columnId, old(currentTargetColumn).value)
      ensures Phase() == Idle
    {
      moved := None;
      if draggingCard.None? {
        return;
      }
      var card := draggingCard.value;
      if !dragStarted {
        draggingCard := None;
        return;
      }
      clone := None;
      UpdateColumnHighlights(cols, None, false);
      var targetColumnId := currentTargetColumn;
      if targetColumnId.Some? && targetColumnId.value != "" && targetColumnId.value != card.columnId {
        var valid := IsValidDropTarget(cols, card.columnId, targetColumnId.value);
        if valid {
          moved := Some(CardMove(card.id, card.columnId, targetColumnId.value));
        }
      }
      draggingCard := None;
      dragStarted := false;
      currentTargetColumn := None;
    }
  }

  // ----- gestures: whole event sequences on a fresh session -----

  /**
   * A press with the primary button, any number of moves that all stay within the
   * threshold of the press point, then a release: a click never calls `onCardMove`,
   * never makes a clone, and leaves the hook idle.
   */
  method Click(down: Point, cardRect: Rect, cardId: string, cardColumnId: string,
               moves: seq<Point>, cardElement: Option<Rect>, cols: seq<ColumnBox>)
    returns (moved: Option<CardMove>, phase: Phase, cloneShown: bool)
    requires forall k :: 0 <= k < |moves| ==> !PastThreshold(down, moves[k])
    ensures moved.None? && phase == Idle && !cloneShown
  {
    var s := new DragSession();
    s.CardMouseDown(0, down, cardRect, cardId, cardColumnId);
    for k := 0 to |moves|
      invariant s.Phase() == Armed && s.mouseDownPosition == down && s.clone.None?
    {
      var _ := s.MouseMove(moves[k], cardElement, cols, null);
    }
    moved := s.MouseUp(cols);
    phase := s.Phase();
    cloneShown := s.clone.Some?;
  }

  /** Three rendered columns side by side, 100 px wide. */
  function Board(): seq<ColumnBox> {
    [ColumnBox("todo", Rect(0, 0, 100, 500)), ColumnBox("doing", Rect(100, 0, 100, 500)),
     ColumnBox("done", Rect(200, 0, 100, 500))]
  }

  /** The three columns of `Board()` have different ids. */
  lemma BoardIdsDistinct()
    ensures forall p, q :: 0 <= p < q < |Board()| ==> Board()[p].id != Board()[q].id
  {
    var cols := Board();
    assert cols[0].id == "todo" && cols[1].id == "doing" && cols[2].id == "done";
  }

  /** A card-sized clone centred over column `to` of `Board()` targets that column. */
  lemma BoardHit(to: int)
    requires 0 <= to < 3
    ensures LastHit(Board(), Rect(100 * to + 40, 20, 80, 40)) == Some(Board()[to].id)
  {
    var cols := Board();
    var r := Rect(100 * to + 40, 20, 80, 40);
    assert ContainsCentre(cols[to].rect, r);
    assert forall i :: 0 <= i < 3 && ContainsCentre(cols[i].rect, r) ==> i == to;
  }

  /**
   * Pressing a card in `from`, dragging it over the middle of `to` and releasing:
   * the one call to `onCardMove` (or its absence) for a given pair of columns.
   */
  method DragAcross(from: int, to: int) returns (moved: Option<CardMove>, phase: Phase)
    requires 0 <= from < 3 && 0 <= to < 3
    ensures moved.Some? <==> from < to
    ensures moved.Some? ==> moved.value == CardMove("card-1", Board()[from].id, Board()[to].id)
    ensures phase == Idle
  {
    var cols := Board();
    var s := new DragSession();
    var cardRect := Rect(100 * from + 10, 10, 80, 40);
    s.CardMouseDown(0, Point(100 * from + 20, 20), cardRect, "card-1", cols[from].id);
    BoardHit(to);
    BoardIdsDistinct();
    var cloned := s.MouseMove(Point(100 * to + 50, 30), Some(cardRect), cols, null);
    assert s.clone.value.rect == Rect(100 * to + 40, 20, 80, 40);
    assert s.currentTargetColumn == Some(cols[to].id);
    ValidDropByPosition(cols, from, to);
    moved := s.MouseUp(cols);
    phase := s.Phase();
  }
}
