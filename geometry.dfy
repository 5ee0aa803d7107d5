/** Corner indices and the integer rectangle arithmetic of one paint call: where the four
    corner patches sit on the window, which framebuffer row their background is read from,
    and which corners are left square because the window touches the screen edge. */
module Geometry {

  /** The corner enumeration of the effect; NTex is the number of mask slots. */
  const TopLeft: nat := 0
  const TopRight: nat := 1
  const BottomRight: nat := 2
  const BottomLeft: nat := 3
  const NTex: nat := 4

  /** The corner lies on the window's left side (otherwise on its right side). */
  predicate IsLeftCorner(i: nat) {
    i == TopLeft || i == BottomLeft
  }

  /** The corner lies on the window's top side (otherwise on its bottom side). */
  predicate IsTopCorner(i: nat) {
    i == TopLeft || i == TopRight
  }

  /** A QSize. */
  datatype Size = Size(width: int, height: int)

  function Square(s: int): Size {
    Size(s, s)
  }

  /** A QRect given by its top-left point and its size; Right() and Bottom() are the last
      column and row inside it, as QRect::right() and QRect::bottom() are. */
  datatype Rect = Rect(x: int, y: int, width: int, height: int) {
    function Right(): int { x + width - 1 }
    function Bottom(): int { y + height - 1 }
  }

  /** The four corner patches of window geometry `geo`: each has the size stored for that
      corner; its offset from the window's right or bottom edge uses the radius `sizes[i]`. */
  function CornerRects(geo: Rect, sizes: seq<int>, corners: seq<Size>): (r: seq<Rect>)
    requires |sizes| >= NTex && |corners| >= NTex
    ensures |r| == NTex
    ensures forall i :: 0 <= i < NTex ==>
      r[i].width == corners[i].width && r[i].height == corners[i].height
    ensures forall i :: 0 <= i < NTex && IsLeftCorner(i) ==> r[i].x == geo.x
    ensures forall i :: 0 <= i < NTex && IsTopCorner(i) ==> r[i].y == geo.y
    ensures (forall i :: 0 <= i < NTex ==> corners[i] == Square(sizes[i])) ==>
      forall i :: 0 <= i < NTex ==>
        (!IsLeftCorner(i) ==> r[i].Right() == geo.Right()) &&
        (!IsTopCorner(i) ==> r[i].Bottom() == geo.Bottom())
  {
    [ Rect(geo.x, geo.y, corners[TopLeft].width, corners[TopLeft].height),
      Rect(geo.Right() - (sizes[TopRight] - 1), geo.y,
           corners[TopRight].width, corners[TopRight].height),
      Rect(geo.Right() - (sizes[BottomRight] - 1), geo.Bottom() - (sizes[BottomRight] - 1),
           corners[BottomRight].width, corners[BottomRight].height),
      Rect(geo.x, geo.Bottom() - (sizes[BottomLeft] - 1),
           corners[BottomLeft].width, corners[BottomLeft].height) ]
  }

  /** A corner patch whose radius fits the window lies inside the window. */
  lemma CornerRectsInsideWindow(geo: Rect, sizes: seq<int>, i: nat)
    requires |sizes| >= NTex && i < NTex
    requires 0 <= sizes[i] <= geo.width && sizes[i] <= geo.height
    ensures var corners := seq(NTex, j requires 0 <= j < NTex => Square(sizes[j]));
      var r := CornerRects(geo, sizes, corners)[i];
      geo.x <= r.x && r.Right() <= geo.Right() && geo.y <= r.y && r.Bottom() <= geo.Bottom()
  {
    var corners := seq(NTex, j requires 0 <= j < NTex => Square(sizes[j]));
    assert forall j :: 0 <= j < NTex ==> corners[j] == Square(sizes[j]);
  }

  /** Row `row` counted from the top of a screen of height `h`, counted from the bottom. */
  function FlipRow(h: int, row: int): int {
    h - 1 - row
  }

  /** The first framebuffer row read when capturing `r` (glCopyTexSubImage2D counts rows
      from the bottom of the screen). */
  function CaptureRow(screenHeight: int, r: Rect): (row: int)
    ensures row == FlipRow(screenHeight, r.Bottom())
    ensures row + r.height - 1 == FlipRow(screenHeight, r.y)
    ensures 0 <= r.y && 0 <= r.height && r.y + r.height <= screenHeight ==>
      0 <= row && row + r.height <= screenHeight
  {
    screenHeight - r.y - r.height
  }

  /** The window's side edge next to corner `i` coincides with the screen's. */
  predicate AtSideEdge(geo: Rect, screen: Rect, i: nat) {
    if IsLeftCorner(i) then geo.x == 0 else geo.x + geo.width == screen.width
  }

  /** The window's top or bottom edge next to corner `i` coincides with the screen's. */
  predicate AtTopOrBottomEdge(geo: Rect, screen: Rect, i: nat) {
    if IsTopCorner(i) then geo.y == 0 else geo.y + geo.height == screen.height
  }

  /** Per corner, whether it is left square: only with `squareAtEdge`, and then exactly
      when one of the corner's two window edges lies on the screen boundary. */
  function CornerConditions(squareAtEdge: bool, geo: Rect, screen: Rect): (r: seq<bool>)
    ensures |r| == NTex
    ensures forall i :: 0 <= i < NTex ==>
      (r[i] <==> squareAtEdge && (AtSideEdge(geo, screen, i) || AtTopOrBottomEdge(geo, screen, i)))
  {
    [ squareAtEdge && (geo.x == 0 || geo.y == 0),
      squareAtEdge && (geo.Right() + 1 == screen.width || geo.y == 0),
      squareAtEdge && (geo.Right() + 1 == screen.width || geo.Bottom() + 1 == screen.height),
      squareAtEdge && (geo.x == 0 || geo.Bottom() + 1 == screen.height) ]
  }

  /** A window flush with the left screen edge keeps both left corners square. */
  lemma LeftEdgeExemptsLeftCorners(geo: Rect, screen: Rect)
    requires geo.x == 0
    ensures var c := CornerConditions(true, geo, screen); c[TopLeft] && c[BottomLeft]
  {
  }

  /** Without `squareAtEdge` no corner is exempt. */
  lemma NoExemptionWithoutSquareAtEdge(geo: Rect, screen: Rect)
    ensures forall i :: 0 <= i < NTex ==> !CornerConditions(false, geo, screen)[i]
  {
  }
}
