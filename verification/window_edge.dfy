/** The float ball's edge hiding (src/helpers/windowManager.js): the edge test on a
    drop position, hiding to an edge behind a thin indicator window, and restoring from
    it.  The display's work area is an input; the windows are reduced to the ball's
    position and visibility and whether an indicator exists.
 */
module WindowEdge {
  import opened Wrappers

  const EdgeThreshold: int := 20
  const BallSize: int := 80
  const ClickArea: int := 20
  const RestoreMargin: int := 30
  const RestoreFar: int := 110

  /** The primary display's work area: its origin and its size. */
  datatype Area = Area(x: int, y: int, width: int, height: int)

  datatype Edge = Left | Right | Top | Bottom

  datatype Pos = Pos(x: int, y: int)

  datatype Rect = Rect(x: int, y: int, width: int, height: int)

  predicate NearLeft(a: Area, p: Pos) { p.x <= a.x + EdgeThreshold }
  predicate NearRight(a: Area, p: Pos) { p.x + BallSize >= a.x + a.width - EdgeThreshold }
  predicate NearTop(a: Area, p: Pos) { p.y <= a.y + EdgeThreshold }
  predicate NearBottom(a: Area, p: Pos) { p.y + BallSize >= a.y + a.height - EdgeThreshold }

  predicate Near(a: Area, p: Pos, e: Edge) {
    match e
    case Left => NearLeft(a, p)
    case Right => NearRight(a, p)
    case Top => NearTop(a, p)
    case Bottom => NearBottom(a, p)
  }

  /** `checkFloatBallEdge`: the first edge, in the order left, right, top, bottom, that
      the ball at `p` is within the threshold of. */
  function CheckEdge(a: Area, p: Pos): (r: Option<Edge>)
    ensures r.None? <==> !NearLeft(a, p) && !NearRight(a, p) && !NearTop(a, p) && !NearBottom(a, p)
    ensures r == Some(Left) <==> NearLeft(a, p)
    ensures r == Some(Right) <==> !NearLeft(a, p) && NearRight(a, p)
    ensures r == Some(Top) <==> !NearLeft(a, p) && !NearRight(a, p) && NearTop(a, p)
    ensures r == Some(Bottom) <==> !NearLeft(a, p) && !NearRight(a, p) && !NearTop(a, p) && NearBottom(a, p)
  {
    if NearLeft(a, p) then Some(Left)
    else if NearRight(a, p) then Some(Right)
    else if NearTop(a, p) then Some(Top)
    else if NearBottom(a, p) then Some(Bottom)
    else None
  }

  /** `floatBallEdgeState`: absent before the float ball is first created. */
  datatype EdgeState = EdgeState(isHidden: bool, hiddenEdge: Option<Edge>, originalPosition: Option<Pos>,
                                 indicator: Option<Rect>)

  const NotHidden: EdgeState := EdgeState(false, None, None, None)

  /** The float ball window: never created (or closed), destroyed, or alive. */
  datatype Ball = NoBall | Destroyed | Live(pos: Pos, visible: bool)

  datatype Windows = Windows(ball: Ball, edgeState: Option<EdgeState>)

  /** The indicator window `createEdgeIndicator` opens for a ball at `b`: a strip of the
      click-area width along the edge, as long as the ball, flush with a right or bottom
      work-area edge. */
  function Indicator(e: Edge, b: Pos, a: Area): (r: Rect)
    ensures r.width == (if e == Left || e == Right then ClickArea else BallSize)
    ensures r.height == (if e == Top || e == Bottom then ClickArea else BallSize)
    ensures e == Left ==> r.x == a.x && r.y == b.y
    ensures e == Right ==> r.x + r.width == a.x + a.width && r.y == b.y
    ensures e == Top ==> r.x == b.x && r.y == a.y
    ensures e == Bottom ==> r.x == b.x && r.y + r.height == a.y + a.height
  {
    var w := if e == Left || e == Right then ClickArea else BallSize;
    var h := if e == Top || e == Bottom then ClickArea else BallSize;
    match e
    case Left => Rect(a.x, b.y, w, h)
    case Right => Rect(a.x + a.width - w, b.y, w, h)
    case Top => Rect(b.x, a.y, w, h)
    case Bottom => Rect(b.x, a.y + a.height - h, w, h)
  }

  /** `hideFloatBallToEdge`: without a live ball nothing happens; otherwise its position
      and edge are remembered, it is hidden, and the indicator opens. */
  function HideToEdge(w: Windows, e: Edge, a: Area): (r: Windows)
    ensures !w.ball.Live? ==> r == w
    ensures w.ball.Live? ==> r.ball == Live(w.ball.pos, false)
    ensures w.ball.Live? ==>
      r.edgeState == Some(EdgeState(true, Some(e), Some(w.ball.pos), Some(Indicator(e, w.ball.pos, a))))
  {
    match w.ball
    case Live(p, _) => Windows(Live(p, false), Some(EdgeState(true, Some(e), Some(p), Some(Indicator(e, p, a)))))
    case _ => w
  }

  /** The restore position as written: the hidden edge's coordinate is pushed 30 px in
      from the left or top, or 110 px in from the right or bottom, measured from 0 and
      not from the work area's origin. */
  function RestoreAsWritten(e: Option<Edge>, p: Pos, a: Area): (r: Pos)
    ensures e.None? ==> r == p
    ensures e == Some(Left) || e == Some(Right) ==> r.y == p.y
    ensures e == Some(Top) || e == Some(Bottom) ==> r.x == p.x
    ensures e == Some(Left) ==> r.x >= p.x && r.x >= RestoreMargin && (r.x == p.x || r.x == RestoreMargin)
    ensures e == Some(Right) ==> r.x <= p.x && r.x <= a.width - RestoreFar && (r.x == p.x || r.x == a.width - RestoreFar)
    ensures e == Some(Top) ==> r.y >= p.y && r.y >= RestoreMargin && (r.y == p.y || r.y == RestoreMargin)
    ensures e == Some(Bottom) ==> r.y <= p.y && r.y <= a.height - RestoreFar && (r.y == p.y || r.y == a.height - RestoreFar)
  {
    match e
    case Some(Left) => Pos(Max(p.x, RestoreMargin), p.y)
    case Some(Right) => Pos(Min(p.x, a.width - RestoreFar), p.y)
    case Some(Top) => Pos(p.x, Max(p.y, RestoreMargin))
    case Some(Bottom) => Pos(p.x, Min(p.y, a.height - RestoreFar))
    case None => p
  }

  /** The restore position measured from the work area's origin. */
  function RestoreCorrected(e: Option<Edge>, p: Pos, a: Area): (r: Pos)
    ensures e.None? ==> r == p
    ensures e == Some(Left) || e == Some(Right) ==> r.y == p.y
    ensures e == Some(Top) || e == Some(Bottom) ==> r.x == p.x
    ensures e == Some(Left) ==> r.x >= p.x && r.x >= a.x + RestoreMargin
    ensures e == Some(Right) ==> r.x <= p.x && r.x <= a.x + a.width - RestoreFar
    ensures e == Some(Top) ==> r.y >= p.y && r.y >= a.y + RestoreMargin
    ensures e == Some(Bottom) ==> r.y <= p.y && r.y <= a.y + a.height - RestoreFar
  {
    match e
    case Some(Left) => Pos(Max(p.x, a.x + RestoreMargin), p.y)
    case Some(Right) => Pos(Min(p.x, a.x + a.width - RestoreFar), p.y)
    case Some(Top) => Pos(p.x, Max(p.y, a.y + RestoreMargin))
    case Some(Bottom) => Pos(p.x, Min(p.y, a.y + a.height - RestoreFar))
    case None => p
  }

  function Max(a: int, b: int): int { if a >= b then a else b }
  function Min(a: int, b: int): int { if a <= b then a else b }

  /** `showFloatBallFromEdge`: only a live ball that is hidden is restored; the indicator
      closes, the ball moves back near its remembered position (by the restore as
      written), shows, and the state is reset. */
  function ShowFromEdge(w: Windows, a: Area): (r: Windows)
    ensures !(w.ball.Live? && w.edgeState.Some? && w.edgeState.value.isHidden) ==> r == w
    ensures w.ball.Live? && w.edgeState.Some? && w.edgeState.value.isHidden ==>
      var st := w.edgeState.value;
      && r.edgeState == Some(NotHidden)
      && r.ball == Live(if st.originalPosition.Some?
                        then RestoreAsWritten(st.hiddenEdge, st.originalPosition.value, a)
                        else w.ball.pos, true)
  {
    match w.ball
    case Live(p, _) =>
      (match w.edgeState
       case Some(s) =>
         if !s.isHidden then w
         else
           var q := match s.originalPosition
                    case Some(o) => RestoreAsWritten(s.hiddenEdge, o, a)
                    case None => p;
           Windows(Live(q, true), Some(NotHidden))
       case None => w)
    case _ => w
  }

  /** `getFloatBallEdgeState`: the state, or not hidden before the ball exists. */
  function GetEdgeState(w: Windows): (r: (bool, Option<Edge>))
    ensures w.edgeState.None? ==> r == (false, None)
    ensures w.edgeState.Some? ==> r == (w.edgeState.value.isHidden, w.edgeState.value.hiddenEdge)
  {
    match w.edgeState
    case Some(s) => (s.isHidden, s.hiddenEdge)
    case None => (false, None)
  }

  // ---------------------------------------------------------------------------
  // Properties

  /** Hiding and then showing brings the ball back visible at its position with only the
      hidden edge's coordinate moved inwards, and the state not hidden. */
  lemma HideThenShow(w: Windows, e: Edge, a: Area)
    requires w.ball.Live?
    ensures var r := ShowFromEdge(HideToEdge(w, e, a), a);
      && r.ball == Live(RestoreAsWritten(Some(e), w.ball.pos, a), true)
      && r.edgeState == Some(NotHidden)
      && GetEdgeState(r) == (false, None)
  {
  }

  /** After hiding, the edge state reports the edge. */
  lemma HideReports(w: Windows, e: Edge, a: Area)
    requires w.ball.Live?
    ensures GetEdgeState(HideToEdge(w, e, a)) == (true, Some(e))
  {
  }

  /** Showing twice is showing once. */
  lemma ShowIdempotent(w: Windows, a: Area)
    ensures ShowFromEdge(ShowFromEdge(w, a), a) == ShowFromEdge(w, a)
  {
  }

  /** A ball restored from an edge is out of that edge's hiding zone. */
  lemma RestoredLeavesZone(e: Edge, p: Pos, a: Area)
    ensures !Near(a, RestoreCorrected(Some(e), p, a), e)
  {
  }

  /** With the work area at the screen's origin, hiding and showing restores the ball out
      of the hiding zone of the edge it was hidden at. */
  lemma HideThenShowAtOriginLeavesZone(w: Windows, e: Edge, a: Area)
    requires w.ball.Live? && a.x == 0 && a.y == 0
    ensures var r := ShowFromEdge(HideToEdge(w, e, a), a);
      r.ball.Live? && !Near(a, r.ball.pos, e)
  {
    HideThenShow(w, e, a);
    RestoreAgreesAtOrigin(Some(e), w.ball.pos, a);
    RestoredLeavesZone(e, w.ball.pos, a);
  }

  /** With the work area at the screen's origin the two restores agree. */
  lemma RestoreAgreesAtOrigin(e: Option<Edge>, p: Pos, a: Area)
    requires a.x == 0 && a.y == 0
    ensures RestoreAsWritten(e, p, a) == RestoreCorrected(e, p, a)
  {
  }

  /** Under a 25 px menu bar, a ball hidden at the top from y = 35 comes back at y = 35,
      still within the top hiding zone. */
  lemma RestoreAsWrittenStaysNearTop()
    ensures var a := Area(0, 25, 1440, 875);
      var p := Pos(600, 35);
      && CheckEdge(a, p) == Some(Top)
      && RestoreAsWritten(Some(Top), p, a) == p
      && Near(a, RestoreAsWritten(Some(Top), p, a), Top)
  {
  }
}
