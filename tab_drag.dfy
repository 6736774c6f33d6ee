/** Drag-and-drop of editor tabs and workspace tabs.

    While an editor-tab child is dragged, a window tab keeps one shared `dragging`
    value (the dragged child's position and its editor-tab group). Every editor-tab
    group has a drop zone that classifies the pointer into five regions and, on drop,
    asks the main split either to move the child into a new split beside the group or
    to move it into the group itself. Every tab header item has a left/right indicator
    and, on drop, computes the index at which the dragged tab is inserted. The workspace
    tab header does the same for whole workspace tabs. */
module TabDrag {
  import opened Options
  import opened Geometry

  type EditorTabId = nat

  /** Where, inside a hovered editor-tab group, the pointer is. */
  datatype DragOverPosition = Top | Bottom | Left | Right | Middle

  /** The side of the target group at which a new split is created. */
  datatype SplitMoveDirection = Up | Down | LeftOf | RightOf

  /** The dragged editor-tab child: its position in its group and the group's id. */
  datatype DragSource = DragSource(fromIndex: nat, fromTab: EditorTabId)

  /** The two operations of the main split that a drop can request. */
  datatype MainSplitCall =
    | MoveToNewSplit(fromTab: EditorTabId, fromIndex: nat, toTab: EditorTabId, direction: SplitMoveDirection)
    | MoveChild(fromTab: EditorTabId, toTab: EditorTabId, fromIndex: nat, toIndex: nat)

  /** Whether an event handler consumed the event. */
  datatype Propagation = Stop | Continue

  /** The region of a group of size `size` that the pointer `pos` is over.
      The horizontal bands are tested first, so Left and Right win in the corners. */
  function Classify(size: Size, pos: Point): (r: DragOverPosition)
    ensures r == Left <==> pos.x < size.width / 4.0
    ensures r == Right <==> !(pos.x < size.width / 4.0) && pos.x > size.width * 3.0 / 4.0
    ensures r == Top <==> size.width / 4.0 <= pos.x <= size.width * 3.0 / 4.0 && pos.y < size.height / 4.0
    ensures r == Bottom <==> size.width / 4.0 <= pos.x <= size.width * 3.0 / 4.0
                             && !(pos.y < size.height / 4.0) && pos.y > size.height * 3.0 / 4.0
  {
    if pos.x < size.width / 4.0 then Left
    else if pos.x > size.width * 3.0 / 4.0 then Right
    else if pos.y < size.height / 4.0 then Top
    else if pos.y > size.height * 3.0 / 4.0 then Bottom
    else Middle
  }

  /** The central rectangle of a group, in which a drop joins the group instead of splitting it. */
  predicate InCentre(size: Size, pos: Point) {
    size.width / 4.0 <= pos.x <= size.width * 3.0 / 4.0 &&
    size.height / 4.0 <= pos.y <= size.height * 3.0 / 4.0
  }

  /** A drop joins the group exactly when the pointer is in the central rectangle. */
  lemma MiddleIsCentre(size: Size, pos: Point)
    ensures Classify(size, pos) == Middle <==> InCentre(size, pos)
  {
  }

  /** Positions in the outer quarters of both axes (the corners) are horizontal moves. */
  lemma CornersAreSides(size: Size, pos: Point)
    requires pos.x < size.width / 4.0 || pos.x > size.width * 3.0 / 4.0
    ensures Classify(size, pos) in {Left, Right}
  {
  }

  /** The split side a region stands for; the middle region stands for none. */
  function SplitSide(p: DragOverPosition): (d: Option<SplitMoveDirection>)
    ensures d.None? <==> p == Middle
  {
    match p
    case Top => Some(Up)
    case Bottom => Some(Down)
    case Left => Some(LeftOf)
    case Right => Some(RightOf)
    case Middle => None
  }

  /** Different edge regions create splits on different sides. */
  lemma SplitSideInjective(p: DragOverPosition, q: DragOverPosition)
    requires p != q && p != Middle
    ensures SplitSide(p) != SplitSide(q)
  {
  }

  /** The call a drop of `src` on group `target` (whose active child is `active`)
      makes when the pointer was last seen over region `pos`. */
  function DropCall(src: DragSource, pos: DragOverPosition, target: EditorTabId, active: nat): (c: MainSplitCall)
    ensures c.MoveChild? <==> pos == Middle
    ensures c.MoveChild? ==> c == MoveChild(src.fromTab, target, src.fromIndex, active + 1)
    ensures c.MoveToNewSplit? ==>
      c.fromTab == src.fromTab && c.fromIndex == src.fromIndex && c.toTab == target
      && SplitSide(pos) == Some(c.direction)
  {
    match SplitSide(pos)
    case Some(d) => MoveToNewSplit(src.fromTab, src.fromIndex, target, d)
    case None => MoveChild(src.fromTab, target, src.fromIndex, active + 1)
  }

  /** Whether a header indicator shows the left half: the pointer is left of the middle. */
  function LeftHalf(x: real, width: real): (left: bool)
    ensures left <==> x < width / 2.0
  {
    x < width / 2.0
  }

  /** The index at which a tab dropped on the header item at `index` is inserted. */
  function HeaderDropIndex(x: real, width: real, index: nat): (r: nat)
    ensures r == index || r == index + 1
    ensures r == index <==> x < width / 2.0
  {
    if LeftHalf(x, width) then index else index + 1
  }

  /** The indicator a header item shows while dragging over it at `x` agrees with the
      index a drop at the same `x` inserts at. */
  lemma IndicatorAgreesWithDrop(x: real, width: real, index: nat)
    ensures LeftHalf(x, width) <==> HeaderDropIndex(x, width, index) == index
    ensures !LeftHalf(x, width) <==> HeaderDropIndex(x, width, index) == index + 1
  {
  }

  /** Moving the pointer right never moves the insertion point left. */
  lemma HeaderDropIndexMonotone(x1: real, x2: real, width: real, index: nat)
    requires x1 <= x2
    ensures HeaderDropIndex(x1, width, index) <= HeaderDropIndex(x2, width, index)
  {
  }

  /** The thresholds on a 400 by 300 group. */
  lemma QuadrantExamples()
    ensures Classify(Size(400.0, 300.0), Point(50.0, 150.0)) == Left
    ensures Classify(Size(400.0, 300.0), Point(390.0, 150.0)) == Right
    ensures Classify(Size(400.0, 300.0), Point(200.0, 10.0)) == Top
    ensures Classify(Size(400.0, 300.0), Point(200.0, 290.0)) == Bottom
    ensures Classify(Size(400.0, 300.0), Point(200.0, 150.0)) == Middle
  {
  }

  /** The `dragging` value a window tab shares between its editor-tab headers and drop zones. */
  class EditorTabDragging {
    var source: Option<DragSource>

    constructor ()
      ensures source == None
    {
      source := None;
    }

    /** A header item at position `index` of group `tab` starts being dragged. */
    method DragStart(index: nat, tab: EditorTabId)
      modifies this
      ensures source == Some(DragSource(index, tab))
    {
      source := Some(DragSource(index, tab));
    }

    /** The drag ends, wherever it ends. */
    method DragEnd()
      modifies this
      ensures source == None
    {
      source := None;
    }
  }

  /** The drop zone laid over the content of one editor-tab group. */
  class DropZone {
    const editorTabId: EditorTabId
    /** The last observed size of the group's content. */
    var tabSize: Size
    /** The highlighted region, if any. */
    var dragOver: Option<DragOverPosition>

    constructor (id: EditorTabId)
      ensures editorTabId == id && tabSize == Size(0.0, 0.0) && dragOver == None
    {
      editorTabId := id;
      tabSize := Size(0.0, 0.0);
      dragOver := None;
    }

    method Resized(size: Size)
      modifies this
      ensures tabSize == size && dragOver == old(dragOver)
    {
      tabSize := size;
    }

    /** A drag-over event; `pointer` is the position when the event is a pointer move.
        The region is recomputed only while something is dragged, and the stored value
        is written (`wrote`) only when it changes. */
    method DragOver(dragging: Option<DragSource>, pointer: Option<Point>) returns (wrote: bool)
      modifies this
      ensures tabSize == old(tabSize)
      ensures wrote <==> dragging.Some? && pointer.Some? && old(dragOver) != Some(Classify(tabSize, pointer.value))
      ensures dragOver == if dragging.Some? && pointer.Some? then Some(Classify(tabSize, pointer.value)) else old(dragOver)
    {
      wrote := false;
      if dragging.Some? && pointer.Some? {
        var next := Classify(tabSize, pointer.value);
        if dragOver != Some(next) {
          dragOver := Some(next);
          wrote := true;
        }
      }
    }

    method DragLeave()
      modifies this
      ensures dragOver == None && tabSize == old(tabSize)
    {
      dragOver := None;
    }

    /** A drop on the group whose active child is `active`. With nothing dragged the
        event passes on and nothing changes; otherwise the highlighted region decides
        the call, and the highlight is cleared. */
    method Drop(dragging: Option<DragSource>, active: nat) returns (call: Option<MainSplitCall>, prop: Propagation)
      modifies this
      ensures tabSize == old(tabSize)
      ensures dragging.None? ==> call == None && prop == Continue && dragOver == old(dragOver)
      ensures dragging.Some? ==> prop == Stop && dragOver == None
      ensures dragging.Some? ==>
        call == if old(dragOver).Some? then Some(DropCall(dragging.value, old(dragOver).value, editorTabId, active)) else None
    {
      if dragging.Some? {
        call := None;
        if dragOver.Some? {
          call := Some(DropCall(dragging.value, dragOver.value, editorTabId, active));
        }
        dragOver := None;
        prop := Stop;
      } else {
        call := None;
        prop := Continue;
      }
    }
  }

  /** One item of an editor-tab header: the tab for the child at position `index`. */
  class HeaderItem {
    const editorTabId: EditorTabId
    /** The child's position, kept equal to its place in the group by the ordinal resync. */
    var index: nat
    var contentWidth: real
    /** Which half of the item is highlighted, if any. */
    var dragOverLeft: Option<bool>

    constructor (id: EditorTabId, i: nat)
      ensures editorTabId == id && index == i && contentWidth == 0.0 && dragOverLeft == None
    {
      editorTabId, index := id, i;
      contentWidth := 0.0;
      dragOverLeft := None;
    }

    /** The item's content was laid out again; only its width is consulted. */
    method Resized(size: Size)
      modifies this
      ensures contentWidth == size.width
      ensures index == old(index) && dragOverLeft == old(dragOverLeft)
    {
      contentWidth := size.width;
    }

    method DragOver(dragging: Option<DragSource>, pointer: Option<Point>) returns (wrote: bool)
      modifies this
      ensures index == old(index) && contentWidth == old(contentWidth)
      ensures wrote <==> dragging.Some? && pointer.Some? && old(dragOverLeft) != Some(LeftHalf(pointer.value.x, contentWidth))
      ensures dragOverLeft == if dragging.Some? && pointer.Some? then Some(LeftHalf(pointer.value.x, contentWidth)) else old(dragOverLeft)
    {
      wrote := false;
      if dragging.Some? && pointer.Some? {
        var left := LeftHalf(pointer.value.x, contentWidth);
        if dragOverLeft != Some(left) {
          dragOverLeft := Some(left);
          wrote := true;
        }
      }
    }

    method DragLeave()
      modifies this
      ensures dragOverLeft == None && index == old(index) && contentWidth == old(contentWidth)
    {
      dragOverLeft := None;
    }

    /** A drop on this header item; `pointerUp` is the pointer position when the event
        is a pointer release. The dragged child moves to the left or right of this one. */
    method Drop(dragging: Option<DragSource>, pointerUp: Option<Point>) returns (call: Option<MainSplitCall>, prop: Propagation)
      modifies this
      ensures index == old(index) && contentWidth == old(contentWidth)
      ensures dragging.None? ==> call == None && prop == Continue && dragOverLeft == old(dragOverLeft)
      ensures dragging.Some? ==> prop == Stop && dragOverLeft == None
      ensures dragging.Some? ==>
        call == if pointerUp.Some?
                then Some(MoveChild(dragging.value.fromTab, editorTabId, dragging.value.fromIndex,
                                    HeaderDropIndex(pointerUp.value.x, contentWidth, index)))
                else None
    {
      call := None;
      if dragging.Some? {
        dragOverLeft := None;
        if pointerUp.Some? {
          var newIndex := HeaderDropIndex(pointerUp.value.x, contentWidth, index);
          call := Some(MoveChild(dragging.value.fromTab, editorTabId, dragging.value.fromIndex, newIndex));
        }
        prop := Stop;
      } else {
        prop := Continue;
      }
    }
  }

  /** The workspace tab header of a window: the dragged tab's position, shared by all items. */
  class WorkspaceTabDragging {
    var draggingIndex: Option<nat>

    constructor ()
      ensures draggingIndex == None
    {
      draggingIndex := None;
    }

    method DragStart(index: nat)
      modifies this
      ensures draggingIndex == Some(index)
    {
      draggingIndex := Some(index);
    }

    method DragEnd()
      modifies this
      ensures draggingIndex == None
    {
      draggingIndex := None;
    }
  }

  /** A request to the window to move workspace tab `from` to position `to`. */
  datatype MoveTab = MoveTab(from: nat, to: nat)

  /** One workspace tab in the header; `tabWidth` is the width every tab is given. */
  class WorkspaceTabItem {
    var index: nat
    var dragOverLeft: Option<bool>

    constructor (i: nat)
      ensures index == i && dragOverLeft == None
    {
      index := i;
      dragOverLeft := None;
    }

    method DragOver(dragging: WorkspaceTabDragging, tabWidth: real, pointer: Option<Point>) returns (wrote: bool)
      modifies this
      ensures index == old(index)
      ensures wrote <==> dragging.draggingIndex.Some? && pointer.Some? && old(dragOverLeft) != Some(LeftHalf(pointer.value.x, tabWidth))
      ensures dragOverLeft == if dragging.draggingIndex.Some? && pointer.Some? then Some(LeftHalf(pointer.value.x, tabWidth)) else old(dragOverLeft)
    {
      wrote := false;
      if dragging.draggingIndex.Some? && pointer.Some? {
        var left := LeftHalf(pointer.value.x, tabWidth);
        if dragOverLeft != Some(left) {
          dragOverLeft := Some(left);
          wrote := true;
        }
      }
    }

    method DragLeave()
      modifies this
      ensures dragOverLeft == None && index == old(index)
    {
      dragOverLeft := None;
    }

    /** A drop on this workspace tab. Unlike an editor-tab drop, a pointer release here
        also ends the drag. */
    method Drop(dragging: WorkspaceTabDragging, tabWidth: real, pointerUp: Option<Point>) returns (move: Option<MoveTab>, prop: Propagation)
      modifies this, dragging
      ensures index == old(index)
      ensures old(dragging.draggingIndex).None? ==>
        move == None && prop == Continue && dragOverLeft == old(dragOverLeft) && dragging.draggingIndex == None
      ensures old(dragging.draggingIndex).Some? ==> prop == Stop && dragOverLeft == None
      ensures old(dragging.draggingIndex).Some? && pointerUp.None? ==>
        move == None && dragging.draggingIndex == old(dragging.draggingIndex)
      ensures old(dragging.draggingIndex).Some? && pointerUp.Some? ==>
        move == Some(MoveTab(old(dragging.draggingIndex).value, HeaderDropIndex(pointerUp.value.x, tabWidth, index)))
        && dragging.draggingIndex == None
    {
      move := None;
      if dragging.draggingIndex.Some? {
        dragOverLeft := None;
        if pointerUp.Some? {
          var newIndex := HeaderDropIndex(pointerUp.value.x, tabWidth, index);
          move := Some(MoveTab(dragging.draggingIndex.value, newIndex));
          dragging.draggingIndex := None;
        }
        prop := Stop;
      } else {
        prop := Continue;
      }
    }
  }
}
