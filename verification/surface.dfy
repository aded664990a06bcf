/**
 The drawing surface's pointer state (script.js lines 2 and 16-32): the
 `isDrawing` flag and the canvas's current path. A press starts a new path,
 a move extends it only while the button is down, a release stops drawing.
 Points are surface-local: the subtraction of the canvas's bounding
 rectangle happens before an event reaches this model.
 */
module Surface {

  datatype Point = Point(x: real, y: real)

  datatype MouseEvent = MouseDown(at: Point) | MouseMove(at: Point) | MouseUp

  /** `path` is the canvas's current path: begun by beginPath/moveTo, extended by lineTo. */
  datatype Surface = Surface(isDrawing: bool, path: seq<Point>)

  /** State at page load: not drawing, no path. */
  const Initial: Surface := Surface(false, [])

  /** While drawing, the current path always holds the point the press started it at. */
  predicate Valid(s: Surface) {
    s.isDrawing ==> |s.path| > 0
  }

  /** One mouse event on the canvas. */
  function Handle(s: Surface, e: MouseEvent): (s': Surface)
    ensures Valid(s) ==> Valid(s')
    ensures e.MouseDown? ==> s'.isDrawing && s'.path == [e.at]
    ensures e.MouseUp? ==> !s'.isDrawing && s'.path == s.path
    ensures e.MouseMove? ==> s'.isDrawing == s.isDrawing
    ensures e.MouseMove? ==> (s' != s <==> s.isDrawing)
  {
    match e
    case MouseDown(p) => Surface(true, [p])
    case MouseMove(p) => if !s.isDrawing then s else s.(path := s.path + [p])
    case MouseUp => s.(isDrawing := false)
  }

  /** A sequence of events, handled in order. */
  function Run(s: Surface, events: seq<MouseEvent>): Surface
    decreases |events|
  {
    if events == [] then s else Run(Handle(s, events[0]), events[1..])
  }

  /** The moves of a pointer that passes through the given points. */
  function Moves(points: seq<Point>): (events: seq<MouseEvent>)
    ensures |events| == |points|
    ensures forall i :: 0 <= i < |points| ==> events[i] == MouseMove(points[i])
  {
    if points == [] then [] else [MouseMove(points[0])] + Moves(points[1..])
  }

  /** Every reachable state is valid. */
  lemma {:induction false} RunPreservesValid(s: Surface, events: seq<MouseEvent>)
    requires Valid(s)
    ensures Valid(Run(s, events))
    decreases |events|
  {
    if events != [] {
      RunPreservesValid(Handle(s, events[0]), events[1..]);
    }
  }

  /** With the button up, moving the pointer changes nothing. */
  lemma {:induction false} MovesWhileIdle(s: Surface, points: seq<Point>)
    requires !s.isDrawing
    ensures Run(s, Moves(points)) == s
    decreases |points|
  {
    if points != [] {
      assert Moves(points)[1..] == Moves(points[1..]);
      MovesWhileIdle(s, points[1..]);
    }
  }

  /** While drawing, each move appends its point to the path, in order. */
  lemma {:induction false} MovesWhileDrawing(s: Surface, points: seq<Point>)
    requires s.isDrawing
    ensures Run(s, Moves(points)) == s.(path := s.path + points)
    decreases |points|
  {
    if points == [] {
      assert s.path + points == s.path;
    } else {
      assert Moves(points)[1..] == Moves(points[1..]);
      var s1 := s.(path := s.path + [points[0]]);
      MovesWhileDrawing(s1, points[1..]);
      assert s1.path + points[1..] == s.path + points;
    }
  }

  /** A whole stroke: press at `start`, drag through `points`, release. The path is exactly those points. */
  lemma Stroke(s: Surface, start: Point, points: seq<Point>)
    ensures Run(s, [MouseDown(start)] + Moves(points) + [MouseUp]) == Surface(false, [start] + points)
  {
    var down := Surface(true, [start]);
    RunAppend(s, [MouseDown(start)], Moves(points) + [MouseUp]);
    assert [MouseDown(start)] + Moves(points) + [MouseUp] == [MouseDown(start)] + (Moves(points) + [MouseUp]);
    MovesWhileDrawing(down, points);
    RunAppend(down, Moves(points), [MouseUp]);
  }

  /** Handling two event sequences one after the other is handling their concatenation. */
  lemma {:induction false} RunAppend(s: Surface, first: seq<MouseEvent>, second: seq<MouseEvent>)
    ensures Run(s, first + second) == Run(Run(s, first), second)
    decreases |first|
  {
    if first != [] {
      assert (first + second)[0] == first[0];
      assert (first + second)[1..] == first[1..] + second;
      RunAppend(Handle(s, first[0]), first[1..], second);
    } else {
      assert first + second == second;
    }
  }
}
