/**
 * The Draggable wrapper around the floating clock: dragging with the
 * mouse keeps the element inside the window, and a resize keeps an
 * element near the right edge on that edge.
 */
module Drag {
  import opened Types

  /** How near the right edge, in pixels, an element has to be to follow it on a resize. */
  const SnapDistance := 50

  /** `Math.max(0, Math.min(v, hi))`. */
  function Clamp(v: int, hi: int): (r: int)
    ensures r >= 0
    ensures hi >= 0 ==> r <= hi
    ensures 0 <= v <= hi ==> r == v
    ensures hi < 0 ==> r == 0
    ensures r == v || r == hi || r == 0
  {
    if v <= hi then (if 0 <= v then v else 0) else (if 0 <= hi then hi else 0)
  }

  function Abs(n: int): nat { if n < 0 then -n else n }

  /** When the range is not empty the clamped value is its point nearest to `v`. */
  lemma ClampIsNearest(v: int, hi: int, w: int)
    requires 0 <= w <= hi
    ensures 0 <= Clamp(v, hi) <= hi
    ensures Abs(Clamp(v, hi) - v) <= Abs(w - v)
  {
  }

  /** The wrapper's state: position, drag flag and the grab offset inside the element. */
  datatype DragView = DragView(x: int, y: int, isDragging: bool, offsetX: int, offsetY: int)

  /** The element lies inside the window box for its size. */
  predicate InBox(v: DragView, innerWidth: int, innerHeight: int, width: nat, height: nat)
  {
    0 <= v.x <= innerWidth - width && 0 <= v.y <= innerHeight - height
  }

  /**
   * A press on the element: unless dragging is disabled, dragging starts
   * and the grab point's offset from the element's corner is kept.
   */
  function Pressed(v: DragView, disabled: bool, clientX: int, clientY: int, left: int, top: int): (v': DragView)
    ensures disabled ==> v' == v
    ensures !disabled ==> v'.isDragging && v'.x == v.x && v'.y == v.y
    ensures !disabled ==> clientX == left + v'.offsetX && clientY == top + v'.offsetY
  {
    if disabled then v
    else v.(isDragging := true, offsetX := clientX - left, offsetY := clientY - top)
  }

  /**
   * A pointer move while dragging: the element follows the pointer, less
   * the grab offset, clamped into the window. Without a drag nothing
   * changes.
   */
  function Moved(v: DragView, clientX: int, clientY: int, innerWidth: int, innerHeight: int, width: nat, height: nat): (v': DragView)
    ensures !v.isDragging ==> v' == v
    ensures v.isDragging ==> v' == v.(x := Clamp(clientX - v.offsetX, innerWidth - width),
                                      y := Clamp(clientY - v.offsetY, innerHeight - height))
    ensures v.isDragging && width <= innerWidth && height <= innerHeight ==>
              InBox(v', innerWidth, innerHeight, width, height)
    ensures v'.x >= 0 || v' == v
  {
    if v.isDragging then
      v.(x := Clamp(clientX - v.offsetX, innerWidth - width), y := Clamp(clientY - v.offsetY, innerHeight - height))
    else v
  }

  /**
   * A move to a point where the element fits in the window puts its
   * corner exactly under the pointer, less the grab offset.
   */
  lemma MoveFollowsPointer(v: DragView, clientX: int, clientY: int, innerWidth: int, innerHeight: int, width: nat, height: nat)
    requires v.isDragging
    requires 0 <= clientX - v.offsetX <= innerWidth - width
    requires 0 <= clientY - v.offsetY <= innerHeight - height
    ensures var v' := Moved(v, clientX, clientY, innerWidth, innerHeight, width, height);
            v'.x + v.offsetX == clientX && v'.y + v.offsetY == clientY
  {
  }

  /**
   * A window resize: an element whose left edge is more than `maxX - 50`
   * moves so that it touches the right edge; otherwise nothing moves. The
   * vertical position is never changed.
   */
  function Resized(v: DragView, innerWidth: int, width: nat): (v': DragView)
    ensures v.x > innerWidth - width - SnapDistance ==> v' == v.(x := innerWidth - width)
    ensures v.x <= innerWidth - width - SnapDistance ==> v' == v
  {
    var maxX := innerWidth - width;
    if v.x > maxX - SnapDistance then v.(x := maxX) else v
  }

  /** Resizing to the same width again changes nothing more. */
  lemma ResizedIdempotent(v: DragView, innerWidth: int, width: nat)
    ensures Resized(Resized(v, innerWidth, width), innerWidth, width) == Resized(v, innerWidth, width)
  {
  }

  /** An element inside the window stays inside it after a resize that it still fits. */
  lemma ResizedStaysInBox(v: DragView, innerWidth: int, innerHeight: int, width: nat, height: nat)
    requires 0 <= v.x <= innerWidth - width && 0 <= v.y <= innerHeight - height
    ensures InBox(Resized(v, innerWidth, width), innerWidth, innerHeight, width, height)
  {
  }

  /** Releasing the button ends a drag and reports where the element was left. */
  function Released(v: DragView): (r: (DragView, Option<Position>))
    ensures !r.0.isDragging
    ensures v.isDragging ==> r == (v.(isDragging := false), Some(Position(v.x, v.y)))
    ensures !v.isDragging ==> r == (v, None)
  {
    if v.isDragging then (v.(isDragging := false), Some(Position(v.x, v.y))) else (v, None)
  }

  /** The Draggable component; `onPositionChange` is the result of `MouseUp`. */
  class Draggable {
    const disabled: bool
    var x: int
    var y: int
    var isDragging: bool
    var offsetX: int
    var offsetY: int

    function View(): DragView
      reads this
    {
      DragView(x, y, isDragging, offsetX, offsetY)
    }

    constructor (initialX: int, initialY: int, disabled: bool)
      ensures this.disabled == disabled
      ensures View() == DragView(initialX, initialY, false, 0, 0)
    {
      this.disabled := disabled;
      x, y := initialX, initialY;
      isDragging := false;
      offsetX, offsetY := 0, 0;
    }

    /** The effect that copies new initial coordinates from the parent into the position. */
    method SyncProps(initialX: int, initialY: int)
      modifies this
      ensures View() == old(View()).(x := initialX, y := initialY)
    {
      x, y := initialX, initialY;
    }

    /** `handleMouseDown`, given the element's bounding box corner. */
    method MouseDown(clientX: int, clientY: int, left: int, top: int)
      modifies this
      ensures View() == Pressed(old(View()), disabled, clientX, clientY, left, top)
    {
      if disabled {
        return;
      }
      isDragging := true;
      offsetX := clientX - left;
      offsetY := clientY - top;
    }

    /** `handleMouseMove`, given the window and element sizes. */
    method MouseMove(clientX: int, clientY: int, innerWidth: int, innerHeight: int, width: nat, height: nat)
      modifies this
      ensures View() == Moved(old(View()), clientX, clientY, innerWidth, innerHeight, width, height)
    {
      if isDragging {
        var newX := clientX - offsetX;
        var newY := clientY - offsetY;
        var maxX := innerWidth - width;
        var maxY := innerHeight - height;
        newX := Clamp(newX, maxX);
        newY := Clamp(newY, maxY);
        x, y := newX, newY;
      }
    }

    /** `handleResize`. */
    method Resize(innerWidth: int, width: nat)
      modifies this
      ensures View() == Resized(old(View()), innerWidth, width)
    {
      var maxX := innerWidth - width;
      if x > maxX - SnapDistance {
        x := maxX;
      }
    }

    /** `handleMouseUp`. */
    method MouseUp() returns (reported: Option<Position>)
      modifies this
      ensures (View(), reported) == Released(old(View()))
    {
      reported := None;
      if isDragging {
        isDragging := false;
        reported := Some(Position(x, y));
      }
    }
  }
}
