/**
  Where the floating stream preview stands (apps/web/src/streamPreviewLayout.ts), over exact numbers.
 */
module StreamPreview {
  const MAX_WIDTH := 960.0
  const COMFORTABLE_WIDTH := 240.0

  datatype Box = Box(left: real, top: real, width: real, height: real)

  datatype Position = Position(x: real, y: real)

  datatype Corner = TopLeft | TopRight | BottomLeft | BottomRight

  function Min(a: real, b: real): real {
    if a < b then a else b
  }

  function Max(a: real, b: real): real {
    if a < b then b else a
  }

  function Abs(a: real): real {
    if a < 0.0 then -a else a
  }

  function Clamp(value: real, max: real): real {
    Max(0.0, Min(max, value))
  }

  function Frame(bounds: Box, requested: real, position: Position, aspect: real): Box
    requires aspect > 0.0
  {
    var width := Max(0.0, Min(Min(Min(requested, MAX_WIDTH), bounds.width), bounds.height * aspect));
    var height := width / aspect;
    Box(bounds.left + Clamp(position.x, 1.0) * Max(0.0, bounds.width - width),
        bounds.top + Clamp(position.y, 1.0) * Max(0.0, bounds.height - height), width, height)
  }

  /** The share of the way travelled; `stuck` where there is no way to go. */
  function Share(offset: real, travel: real, stuck: real): real {
    if travel != 0.0 then Clamp(offset, travel) / travel else stuck
  }

  function PositionOf(bounds: Box, width: real, left: real, top: real, aspect: real): Position
    requires aspect > 0.0
  {
    Position(Share(left - bounds.left, Max(0.0, bounds.width - width), 1.0),
             Share(top - bounds.top, Max(0.0, bounds.height - width / aspect), 0.0))
  }

  predicate West(corner: Corner) {
    corner.TopLeft? || corner.BottomLeft?
  }

  predicate North(corner: Corner) {
    corner.TopLeft? || corner.TopRight?
  }

  /** The corner opposite the dragged one. */
  function AnchorX(frame: Box, corner: Corner): real {
    frame.left + if West(corner) then frame.width else 0.0
  }

  function AnchorY(frame: Box, corner: Corner): real {
    frame.top + if North(corner) then frame.height else 0.0
  }

  /** How far the anchor is from the bounds on the side being dragged. */
  function RoomX(bounds: Box, frame: Box, corner: Corner): real {
    var x := AnchorX(frame, corner);
    if West(corner) then x - bounds.left else bounds.left + bounds.width - x
  }

  function RoomY(bounds: Box, frame: Box, corner: Corner): real {
    var y := AnchorY(frame, corner);
    if North(corner) then y - bounds.top else bounds.top + bounds.height - y
  }

  /** The greatest width between the anchor and the bounds. */
  function Available(bounds: Box, frame: Box, corner: Corner, aspect: real): real {
    Max(0.0, Min(Min(MAX_WIDTH, RoomX(bounds, frame, corner)), RoomY(bounds, frame, corner) * aspect))
  }

  datatype Resized = Resized(width: real, position: Position)

  function Resize(bounds: Box, frame: Box, corner: Corner, dx: real, dy: real, aspect: real): Resized
    requires aspect > 0.0
  {
    var horizontal := dx * if West(corner) then -1.0 else 1.0;
    var vertical := dy * (if North(corner) then -1.0 else 1.0) * aspect;
    var delta := if Abs(horizontal) >= Abs(vertical) then horizontal else vertical;
    var available := Available(bounds, frame, corner, aspect);
    var width := Max(Min(COMFORTABLE_WIDTH, available), Min(available, frame.width + delta));
    var left := AnchorX(frame, corner) - if West(corner) then width else 0.0;
    var top := AnchorY(frame, corner) - if North(corner) then width / aspect else 0.0;
    Resized(width, PositionOf(bounds, width, left, top, aspect))
  }

  predicate Inside(bounds: Box, frame: Box) {
    && bounds.left <= frame.left && frame.left + frame.width <= bounds.left + bounds.width
    && bounds.top <= frame.top && frame.top + frame.height <= bounds.top + bounds.height
  }

  /** Along one axis, there and back: from a place within reach to its share and to the place. */
  lemma ShareBack(offset: real, travel: real, stuck: real)
    requires 0.0 <= offset <= travel
    ensures var p := Share(offset, travel, stuck); travel != 0.0 ==> Clamp(p, 1.0) * travel == offset
  {
    if travel != 0.0 {
      assert (offset / travel) * travel == offset;
    }
  }

  lemma Ratio(a: real, b: real, aspect: real)
    requires aspect > 0.0
    ensures a <= b * aspect <==> a / aspect <= b
    ensures (a / aspect) * aspect == a
  {
    assert (a / aspect) * aspect == a;
  }

  /** A frame that fits where it is asked to be comes back from its position exactly there. */
  lemma FrameOfPosition(bounds: Box, width: real, left: real, top: real, aspect: real)
    requires aspect > 0.0 && 0.0 <= width <= MAX_WIDTH
    requires Inside(bounds, Box(left, top, width, width / aspect))
    ensures Frame(bounds, width, PositionOf(bounds, width, left, top, aspect), aspect) ==
      Box(left, top, width, width / aspect)
  {
    Ratio(width, bounds.height, aspect);
    ShareBack(left - bounds.left, bounds.width - width, 1.0);
    ShareBack(top - bounds.top, bounds.height - width / aspect, 0.0);
  }

  /** And from a share to the place and back to the share. */
  lemma ShareOf(p: real, travel: real, stuck: real)
    requires 0.0 <= p <= 1.0 && travel >= 0.0
    ensures 0.0 <= p * travel <= travel
    ensures Share(p * travel, travel, stuck) == if travel > 0.0 then p else stuck
  {
    assert p * travel <= 1.0 * travel;
    if travel > 0.0 {
      assert (p * travel) / travel == p;
    }
  }

  lemma FrameFits(bounds: Box, requested: real, position: Position, aspect: real)
    requires aspect > 0.0 && bounds.width >= 0.0 && bounds.height >= 0.0
    ensures var f := Frame(bounds, requested, position, aspect);
      f.height == f.width / aspect && 0.0 <= f.width <= bounds.width && f.height <= bounds.height
  {
    var f := Frame(bounds, requested, position, aspect);
    assert bounds.height * aspect >= 0.0;
    Ratio(f.width, bounds.height, aspect);
  }

  /**
    The position of a laid out frame is the one it was laid out at, clamped; where there is no room to
    move, it is the right edge and the top.
   */
  lemma PositionOfFrame(bounds: Box, requested: real, position: Position, aspect: real)
    requires aspect > 0.0 && bounds.width >= 0.0 && bounds.height >= 0.0
    ensures var f := Frame(bounds, requested, position, aspect);
      PositionOf(bounds, f.width, f.left, f.top, aspect) ==
        Position(if bounds.width > f.width then Clamp(position.x, 1.0) else 1.0,
                 if bounds.height > f.height then Clamp(position.y, 1.0) else 0.0)
    ensures Inside(bounds, Frame(bounds, requested, position, aspect))
  {
    var f := Frame(bounds, requested, position, aspect);
    FrameFits(bounds, requested, position, aspect);
    Placed(bounds, f, Clamp(position.x, 1.0), Clamp(position.y, 1.0), aspect);
  }

  lemma Placed(bounds: Box, f: Box, x: real, y: real, aspect: real)
    requires aspect > 0.0 && f.height == f.width / aspect && f.width <= bounds.width && f.height <= bounds.height
    requires 0.0 <= x <= 1.0 && 0.0 <= y <= 1.0
    requires f.left == bounds.left + x * (bounds.width - f.width)
    requires f.top == bounds.top + y * (bounds.height - f.height)
    ensures PositionOf(bounds, f.width, f.left, f.top, aspect) ==
      Position(if bounds.width > f.width then x else 1.0, if bounds.height > f.height then y else 0.0)
    ensures Inside(bounds, f)
  {
    ShareOf(x, bounds.width - f.width, 1.0);
    ShareOf(y, bounds.height - f.height, 0.0);
    assert f.left - bounds.left == x * (bounds.width - f.width);
    assert f.top - bounds.top == y * (bounds.height - f.height);
  }

  lemma RoomHolds(bounds: Box, frame: Box, corner: Corner)
    requires Inside(bounds, frame)
    ensures frame.width <= RoomX(bounds, frame, corner) && frame.height <= RoomY(bounds, frame, corner)
  {
  }

  lemma AvailableFits(bounds: Box, frame: Box, corner: Corner, aspect: real)
    requires aspect > 0.0 && RoomX(bounds, frame, corner) >= 0.0 && RoomY(bounds, frame, corner) >= 0.0
    ensures var a := Available(bounds, frame, corner, aspect);
      0.0 <= a <= MAX_WIDTH && a <= RoomX(bounds, frame, corner) && a / aspect <= RoomY(bounds, frame, corner)
  {
    var y := RoomY(bounds, frame, corner);
    assert y * aspect >= 0.0;
    Ratio(Available(bounds, frame, corner, aspect), y, aspect);
  }

  /**
    Dragging a corner of a frame inside the bounds gives a frame inside the bounds whose opposite corner
    has not moved, as wide as was asked for, and between 240, or all there is, and all there is.
   */
  lemma ResizeKeepsAnchor(bounds: Box, frame: Box, corner: Corner, dx: real, dy: real, aspect: real)
    requires aspect > 0.0 && Inside(bounds, frame) && frame.width >= 0.0 && frame.height >= 0.0
    ensures var r, available := Resize(bounds, frame, corner, dx, dy, aspect), Available(bounds, frame, corner, aspect);
      var after := Frame(bounds, r.width, r.position, aspect);
      && Inside(bounds, after) && after.width == r.width
      && AnchorX(after, corner) == AnchorX(frame, corner) && AnchorY(after, corner) == AnchorY(frame, corner)
      && Min(COMFORTABLE_WIDTH, available) <= r.width <= available
  {
    var r, available := Resize(bounds, frame, corner, dx, dy, aspect), Available(bounds, frame, corner, aspect);
    RoomHolds(bounds, frame, corner);
    AvailableFits(bounds, frame, corner, aspect);
    var left := AnchorX(frame, corner) - if West(corner) then r.width else 0.0;
    var top := AnchorY(frame, corner) - if North(corner) then r.width / aspect else 0.0;
    Narrower(r.width, available, aspect);
    FrameOfPosition(bounds, r.width, left, top, aspect);
  }

  lemma Narrower(width: real, available: real, aspect: real)
    requires 0.0 <= width <= available && aspect > 0.0
    ensures 0.0 <= width / aspect <= available / aspect
  {
    Ratio(width, available / aspect, aspect);
    Ratio(available, available / aspect, aspect);
  }

  lemma NoDelta(bounds: Box, frame: Box, corner: Corner, aspect: real)
    requires aspect > 0.0
    ensures var available := Available(bounds, frame, corner, aspect);
      Resize(bounds, frame, corner, 0.0, 0.0, aspect).width ==
        Max(Min(COMFORTABLE_WIDTH, available), Min(available, frame.width))
  {
  }

  lemma LeastOf(width: real, x: real, y: real)
    requires width <= MAX_WIDTH && width <= x && width <= y
    ensures width <= Max(0.0, Min(Min(MAX_WIDTH, x), y))
  {
  }

  lemma NarrowEnough(bounds: Box, frame: Box, corner: Corner, aspect: real)
    requires aspect > 0.0 && frame.height == frame.width / aspect && frame.width <= MAX_WIDTH
    requires frame.width <= RoomX(bounds, frame, corner) && frame.height <= RoomY(bounds, frame, corner)
    ensures frame.width <= Available(bounds, frame, corner, aspect)
  {
    var x, y := RoomX(bounds, frame, corner), RoomY(bounds, frame, corner);
    Ratio(frame.width, y, aspect);
    LeastOf(frame.width, x, y * aspect);
  }

  /** A drag by nothing gives the frame back, unless it is narrower than the least width. */
  lemma DragByNothing(bounds: Box, frame: Box, corner: Corner, aspect: real)
    requires aspect > 0.0 && Inside(bounds, frame) && frame.height == frame.width / aspect
    requires 0.0 <= frame.width <= MAX_WIDTH
    requires frame.width >= Min(COMFORTABLE_WIDTH, Available(bounds, frame, corner, aspect))
    ensures var r := Resize(bounds, frame, corner, 0.0, 0.0, aspect);
      Frame(bounds, r.width, r.position, aspect) == frame
  {
    Narrower(frame.width, frame.width, aspect);
    NoDelta(bounds, frame, corner, aspect);
    RoomHolds(bounds, frame, corner);
    NarrowEnough(bounds, frame, corner, aspect);
    ResizeKeepsAnchor(bounds, frame, corner, 0.0, 0.0, aspect);
    var position := Resize(bounds, frame, corner, 0.0, 0.0, aspect).position;
    SameBox(Frame(bounds, frame.width, position, aspect), frame, corner, aspect);
  }

  /** Two boxes of the same width and ratio with the same anchor are the same. */
  lemma SameBox(a: Box, b: Box, corner: Corner, aspect: real)
    requires aspect > 0.0 && a.width == b.width && a.height == a.width / aspect && b.height == b.width / aspect
    requires AnchorX(a, corner) == AnchorX(b, corner) && AnchorY(a, corner) == AnchorY(b, corner)
    ensures a == b
  {
  }
}
