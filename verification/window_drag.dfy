/** The drag-versus-click state machine of src/hooks/useWindowDrag.js: a press starts a
    drag, a move of more than 5 px in either direction marks it as moved, and a click
    after a moved drag is suppressed until the reset that follows the release.  The
    100 ms reset timer is an explicit event.
 */
module WindowDrag {
  const Threshold: int := 5

  datatype Point = Point(x: int, y: int)

  datatype Drag = Drag(isDragging: bool, start: Point, moved: bool)

  const Initial: Drag := Drag(false, Point(0, 0), false)

  datatype Event = Down(at: Point) | Move(to: Point) | Up | ResetFired

  function Abs(v: int): nat { if v < 0 then -v else v }

  /** A move of more than the threshold along either axis. */
  predicate Far(a: Point, b: Point) {
    Abs(b.x - a.x) > Threshold || Abs(b.y - a.y) > Threshold
  }

  function Step(d: Drag, e: Event): (r: Drag)
    ensures e.Down? ==> r == Drag(true, e.at, false)
    ensures e.Move? ==> r.isDragging == d.isDragging && r.start == d.start
    ensures e.Move? ==> (r.moved <==> d.moved || (d.isDragging && Far(d.start, e.to)))
    ensures e.Up? ==> r == d.(isDragging := false)
    ensures e.ResetFired? ==> r == d.(moved := false)
  {
    match e
    case Down(p) => Drag(true, p, false)
    case Move(p) => if d.isDragging && Far(d.start, p) then d.(moved := true) else d
    case Up => d.(isDragging := false)
    case ResetFired => d.(moved := false)
  }

  function Run(d: Drag, es: seq<Event>): Drag
    decreases |es|
  {
    if es == [] then d else Run(Step(d, es[0]), es[1..])
  }

  /** `handleClick`: true lets the click through; false suppresses it. */
  function Click(d: Drag): (ok: bool)
    ensures ok <==> !d.moved
  {
    !d.moved
  }

  /** After a press at `p` and a series of moves (and releases, which do not reset
      `moved`), the drag counts as moved exactly when some move while still pressed went
      further than the threshold from `p`. */
  lemma {:induction false} MovedIffSomeFarMove(d: Drag, es: seq<Event>)
    requires forall i :: 0 <= i < |es| ==> es[i].Move? || es[i].Up?
    ensures Run(d, es).start == d.start
    ensures Run(d, es).moved <==>
      d.moved || exists i :: 0 <= i < |es| && es[i].Move? && Far(d.start, es[i].to) && PressedBefore(d, es, i)
    decreases |es|
  {
    if es != [] {
      var d1 := Step(d, es[0]);
      MovedIffSomeFarMove(d1, es[1..]);
      forall i | 0 <= i < |es| - 1
        ensures PressedBefore(d1, es[1..], i) == PressedBefore(d, es, i + 1)
      {
        PressedShift(d, es, i);
      }
      if Run(d, es).moved && !d.moved && !(es[0].Move? && Far(d.start, es[0].to) && PressedBefore(d, es, 0)) {
        var j :| 0 <= j < |es| - 1 && es[1..][j].Move? && Far(d1.start, es[1..][j].to) && PressedBefore(d1, es[1..], j);
        assert es[j + 1].Move? && Far(d.start, es[j + 1].to) && PressedBefore(d, es, j + 1);
      }
      if !Run(d, es).moved {
        forall i | 0 <= i < |es| && es[i].Move? && PressedBefore(d, es, i)
          ensures !Far(d.start, es[i].to)
        {
          if i > 0 {
            assert es[1..][i - 1] == es[i];
          }
        }
      }
    }
  }

  /** The button is still down before event `i`: the drag was pressed and no release came
      among the first `i` events. */
  predicate PressedBefore(d: Drag, es: seq<Event>, i: nat)
    requires i <= |es|
  {
    d.isDragging && forall k :: 0 <= k < i ==> !es[k].Up?
  }

  lemma PressedShift(d: Drag, es: seq<Event>, i: nat)
    requires 0 <= i < |es| - 1
    requires es[0].Move? || es[0].Up?
    ensures PressedBefore(Step(d, es[0]), es[1..], i) == PressedBefore(d, es, i + 1)
  {
    if PressedBefore(d, es, i + 1) {
      forall k | 0 <= k < i ensures !es[1..][k].Up? {
        assert es[1..][k] == es[k + 1];
      }
    }
    if PressedBefore(Step(d, es[0]), es[1..], i) {
      forall k | 0 <= k < i + 1 ensures !es[k].Up? {
        if k > 0 {
          assert es[1..][k - 1] == es[k];
        }
      }
    }
  }

  lemma RunCons(d: Drag, e: Event, es: seq<Event>)
    ensures Run(d, [e] + es) == Run(Step(d, e), es)
  {
    assert ([e] + es)[1..] == es;
  }

  /** A press, a far move and a release suppress the next click; the reset restores it. */
  lemma DragSuppressesClick(d: Drag, p: Point, q: Point)
    requires Far(p, q)
    ensures !Click(Run(d, [Down(p), Move(q), Up]))
    ensures Click(Run(d, [Down(p), Move(q), Up, ResetFired]))
  {
    var d1 := Step(d, Down(p));
    var d2 := Step(d1, Move(q));
    var d3 := Step(d2, Up);
    assert d3 == Drag(false, p, true);
    RunCons(d2, Up, []);
    RunCons(d1, Move(q), [Up]);
    RunCons(d, Down(p), [Move(q), Up]);
    RunCons(d3, ResetFired, []);
    RunCons(d2, Up, [ResetFired]);
    RunCons(d1, Move(q), [Up, ResetFired]);
    RunCons(d, Down(p), [Move(q), Up, ResetFired]);
  }

  /** A press and release without moving lets the click through. */
  lemma StillPressClicks(d: Drag, p: Point)
    ensures Click(Run(d, [Down(p), Up]))
  {
    RunCons(Step(d, Down(p)), Up, []);
    RunCons(d, Down(p), [Up]);
  }
}
