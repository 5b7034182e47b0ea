/**
 * The split-view screen's draggable divider: a DOWN event records where the
 * drag starts and how wide both panes are; each MOVE recomputes both widths
 * from those start values and applies them only while both stay above the
 * minimum.
 */
module SplitView {

  /** Neither pane may be set to this width or less. */
  const MIN_PANE_WIDTH: int := 100

  /** `MotionEvent.ACTION_DOWN`, `MotionEvent.ACTION_MOVE`, and every other action code. */
  datatype Action = ActionDown | ActionMove | ActionOther(code: int)

  /** A touch event on the divider, with its screen x coordinate in whole pixels. */
  datatype MotionEvent = MotionEvent(action: Action, rawX: int)

  /** `LinearLayout.LayoutParams`, reduced to the width and the weight the handler sets. */
  datatype LayoutParams = LayoutParams(width: int, weight: real)

  /**
   * The widths a drag to `rawX` asks for: the pointer's displacement since the
   * drag started goes to the left pane and is taken from the right one.
   */
  function DraggedWidths(initialLeftWidth: int, initialRightWidth: int, initialX: int, rawX: int): (w: (int, int))
    ensures w.0 + w.1 == initialLeftWidth + initialRightWidth
    ensures w.0 - initialLeftWidth == rawX - initialX
  {
    var dx := rawX - initialX;
    (initialLeftWidth + dx, initialRightWidth - dx)
  }

  /** Both widths are strictly above the minimum. */
  predicate WidthsAllowed(w: (int, int)) {
    w.0 > MIN_PANE_WIDTH && w.1 > MIN_PANE_WIDTH
  }

  /** Dragging back to where the drag started asks for the widths the panes had then. */
  lemma DragBackToStart(initialLeftWidth: int, initialRightWidth: int, initialX: int)
    ensures DraggedWidths(initialLeftWidth, initialRightWidth, initialX, initialX) == (initialLeftWidth, initialRightWidth)
  {
  }

  class SplitViewActivity {
    var initialX: int
    var initialLeftWidth: int
    var initialRightWidth: int
    /** The layout parameters of the left and right pane containers. */
    var leftParams: LayoutParams
    var rightParams: LayoutParams

    /** The screen as created: drag state at its field defaults, pane parameters from the layout. */
    constructor (layoutLeft: LayoutParams, layoutRight: LayoutParams)
      ensures initialX == 0 && initialLeftWidth == 0 && initialRightWidth == 0
      ensures leftParams == layoutLeft && rightParams == layoutRight
    {
      initialX, initialLeftWidth, initialRightWidth := 0, 0, 0;
      leftParams, rightParams := layoutLeft, layoutRight;
    }

    /**
     * The divider's touch listener. `leftWidth` and `rightWidth` are the panes'
     * current measured widths. Returns whether the event was consumed.
     */
    method OnTouch(event: MotionEvent, leftWidth: int, rightWidth: int) returns (handled: bool)
      modifies this
      ensures event.action.ActionDown? ==>
        && handled
        && initialX == event.rawX && initialLeftWidth == leftWidth && initialRightWidth == rightWidth
        && leftParams == old(leftParams) && rightParams == old(rightParams)
      ensures event.action.ActionMove? ==>
        var w := DraggedWidths(old(initialLeftWidth), old(initialRightWidth), old(initialX), event.rawX);
        && handled
        && initialX == old(initialX) && initialLeftWidth == old(initialLeftWidth) && initialRightWidth == old(initialRightWidth)
        && (WidthsAllowed(w) ==> leftParams == LayoutParams(w.0, 0.0) && rightParams == LayoutParams(w.1, 0.0))
        && (!WidthsAllowed(w) ==> leftParams == old(leftParams) && rightParams == old(rightParams))
      ensures event.action.ActionOther? ==>
        && !handled
        && initialX == old(initialX) && initialLeftWidth == old(initialLeftWidth) && initialRightWidth == old(initialRightWidth)
        && leftParams == old(leftParams) && rightParams == old(rightParams)
    {
      match event.action {
        case ActionDown =>
          initialX := event.rawX;
          initialLeftWidth := leftWidth;
          initialRightWidth := rightWidth;
          handled := true;
        case ActionMove =>
          var dx := event.rawX - initialX;
          var newLeftWidth := initialLeftWidth + dx;
          var newRightWidth := initialRightWidth - dx;
          if newLeftWidth > MIN_PANE_WIDTH && newRightWidth > MIN_PANE_WIDTH {
            leftParams := leftParams.(width := newLeftWidth, weight := 0.0);
            rightParams := rightParams.(width := newRightWidth, weight := 0.0);
          }
          handled := true;
        case ActionOther(_) =>
          handled := false;
      }
    }
  }

  /**
   * Moves are measured from the drag start, not from the previous move: a
   * rejected move in between leaves no trace, and the panes end at the widths
   * of the last accepted move.
   */
  method DragScenario()
  {
    var s := new SplitViewActivity(LayoutParams(0, 1.0), LayoutParams(0, 1.0));
    var h := s.OnTouch(MotionEvent(ActionDown, 500), 500, 500);
    h := s.OnTouch(MotionEvent(ActionMove, 300), 0, 0);
    assert s.leftParams == LayoutParams(300, 0.0) && s.rightParams == LayoutParams(700, 0.0);
    h := s.OnTouch(MotionEvent(ActionMove, 50), 0, 0);
    assert s.leftParams == LayoutParams(300, 0.0) && s.rightParams == LayoutParams(700, 0.0);
    h := s.OnTouch(MotionEvent(ActionMove, 600), 0, 0);
    assert s.leftParams == LayoutParams(600, 0.0) && s.rightParams == LayoutParams(400, 0.0);
    h := s.OnTouch(MotionEvent(ActionOther(1), 0), 0, 0);
    assert !h && s.leftParams.width + s.rightParams.width == 1000;
  }
}
