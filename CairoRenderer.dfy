/** The bookkeeping of the Cairo renderer: the triangle indices it makes
    for the three triangle primitive modes, its page counter, and the
    sliding window of Catmull-Rom points it keeps while drawing a path. */
module CairoRenderer {
  import opened Util

  datatype PrimitiveMode = TrianglesMode | TriangleStripMode | TriangleFanMode | OtherMode

  /** `0, 1, .., n - 1`. */
  function Upto(n: nat): (r: seq<int>)
    ensures |r| == n
    ensures forall i :: 0 <= i < n ==> r[i] == i
  {
    if n == 0 then [] else Upto(n - 1) + [n - 1]
  }

  /** The pairs `i, i - 2` the strip loop adds for `3 <= i < m`. */
  function StripPairs(m: nat): seq<int>
  {
    if m <= 3 then [] else StripPairs(m - 1) + [m - 1, m - 3]
  }

  /** The triples `0, i, i + 1` the fan loop adds for `2 <= i < m - 1`. */
  function FanTriples(m: nat): seq<int>
  {
    if m <= 3 then [] else FanTriples(m - 1) + [0, m - 2, m - 1]
  }

  /** The index list `get_triangles` builds for `n` vertices. The strip and
      fan modes always start with `0, 1, 2`, also when there are fewer than
      three vertices. */
  function Triangles(mode: PrimitiveMode, n: nat): seq<int>
  {
    match mode
      case TrianglesMode => Upto(n)
      case TriangleStripMode => [0, 1, 2] + StripPairs(n)
      case TriangleFanMode => [0, 1, 2] + FanTriples(n)
      case OtherMode => []
  }

  /** Where the pair or triple for vertex `i` starts. */
  function StripSlot(i: int): int { 2 * (i - 3) }
  function FanSlot(i: int): int { 3 * (i - 2) }

  /** The strip adds two indices per vertex from the fourth on: vertex `i`
      and the vertex two before it. */
  lemma {:induction false} StripPairsShape(m: nat)
    ensures |StripPairs(m)| == (if m <= 3 then 0 else 2 * (m - 3))
    ensures forall i :: 3 <= i < m ==> StripPairs(m)[StripSlot(i)] == i && StripPairs(m)[StripSlot(i) + 1] == i - 2
  {
    if m > 3 {
      StripPairsShape(m - 1);
    }
  }

  /** The fan adds, from the third vertex up to the last but one, the
      centre, that vertex and the next. */
  lemma {:induction false} FanTriplesShape(m: nat)
    ensures |FanTriples(m)| == (if m <= 3 then 0 else 3 * (m - 3))
    ensures forall i :: 2 <= i < m - 1 ==>
      FanTriples(m)[FanSlot(i)] == 0 && FanTriples(m)[FanSlot(i) + 1] == i && FanTriples(m)[FanSlot(i) + 2] == i + 1
  {
    if m > 3 {
      FanTriplesShape(m - 1);
    }
  }

  /** The number of indices per mode: `n`, `3 + 2 (n - 3)` and
      `3 + 3 (n - 3)` for three vertices or more, and none for other modes. */
  lemma TriangleCount(mode: PrimitiveMode, n: nat)
    requires n >= 3
    ensures |Triangles(mode, n)| == match mode
      case TrianglesMode => n
      case TriangleStripMode => 3 + 2 * (n - 3)
      case TriangleFanMode => 3 + 3 * (n - 3)
      case OtherMode => 0
  {
    StripPairsShape(n);
    FanTriplesShape(n);
  }

  lemma {:induction false} StripPairsBound(m: nat)
    ensures forall k :: 0 <= k < |StripPairs(m)| ==> 0 <= StripPairs(m)[k] < m
  {
    if m > 3 {
      StripPairsBound(m - 1);
    }
  }

  lemma {:induction false} FanTriplesBound(m: nat)
    ensures forall k :: 0 <= k < |FanTriples(m)| ==> 0 <= FanTriples(m)[k] < m
  {
    if m > 3 {
      FanTriplesBound(m - 1);
    }
  }

  /** With three vertices or more every index names a vertex. */
  lemma TrianglesInRange(mode: PrimitiveMode, n: nat)
    requires n >= 3
    ensures forall k :: 0 <= k < |Triangles(mode, n)| ==> 0 <= Triangles(mode, n)[k] < n
  {
    StripPairsBound(n);
    FanTriplesBound(n);
  }

  /** `get_triangles`: one loop per mode appending to a fresh index list. */
  method GetTriangles(mode: PrimitiveMode, n: nat) returns (triangles: seq<int>)
    ensures triangles == Triangles(mode, n)
  {
    triangles := [];
    match mode {
      case TrianglesMode =>
        var i := 0;
        while i < n
          invariant 0 <= i <= n && triangles == Upto(i)
        {
          triangles := triangles + [i];
          i := i + 1;
        }
      case TriangleStripMode =>
        triangles := triangles + [0] + [1] + [2];
        var i := 3;
        while i < n
          invariant 3 <= i && (i <= n || i == 3)
          invariant triangles == [0, 1, 2] + StripPairs(i)
        {
          triangles := triangles + [i] + [i - 2];
          i := i + 1;
        }
        if n >= 3 { assert i == n; } else { assert StripPairs(n) == [] == StripPairs(i); }
      case TriangleFanMode =>
        triangles := triangles + [0] + [1] + [2];
        var i := 2;
        while i < n - 1
          invariant 2 <= i && (i <= n - 1 || i == 2)
          invariant triangles == [0, 1, 2] + FanTriples(i + 1)
        {
          triangles := triangles + [0] + [i] + [i + 1];
          i := i + 1;
        }
        if n >= 3 { assert i + 1 == n; } else { assert FanTriples(n) == [] == FanTriples(i + 1); }
      case OtherMode =>
    }
  }

  // ---------------------------------------------------------------------
  // Drawing paths

  datatype CommandKind = Line2DTo | Line3DTo | Curve2DTo | Bezier2DTo | QuadBezier2DTo | Arc2D | OtherCommand

  datatype Command = Command(kind: CommandKind, to: Point, cp1: Point, cp2: Point)

  /** What the renderer hands to Cairo for one command. */
  datatype Op = LineTo(to: Point) | CurveTo(c1: Point, c2: Point, to: Point) | ArcTo(center: Point)

  /** The Bezier segment of a Catmull-Rom window `p1 .. p4`, drawn from
      `p2` to `p3`. */
  function CatmullRom(p1: Point, p2: Point, p3: Point, p4: Point): Op
  {
    CurveTo(Add(p2, Scale(Sub(p3, p1), 1.0 / 6.0)), Add(p3, Scale(Sub(p2, p4), 1.0 / 6.0)), p3)
  }

  /** One command: the new window and the operations it emits. */
  function Step(window: seq<Point>, c: Command): (seq<Point>, seq<Op>)
  {
    match c.kind
      case Line2DTo => ([], [LineTo(c.to)])
      case Line3DTo => ([], [LineTo(c.to)])
      case Curve2DTo =>
        var w := window + [c.to];
        if |w| == 4 then (w[1..], [CatmullRom(w[0], w[1], w[2], w[3])]) else (w, [])
      case Bezier2DTo => ([], [CurveTo(c.cp1, c.cp2, c.to)])
      case QuadBezier2DTo => ([], [CurveTo(c.cp1, c.cp2, c.to)])
      case Arc2D => ([], [ArcTo(c.to)])
      case OtherCommand => (window, [])
  }

  /** The window after a run of commands. */
  function WindowAfter(window: seq<Point>, cs: seq<Command>): seq<Point>
    decreases |cs|
  {
    if cs == [] then window else WindowAfter(Step(window, cs[0]).0, cs[1..])
  }

  /** The operations a run of commands emits. */
  function OpsOf(window: seq<Point>, cs: seq<Command>): seq<Op>
    decreases |cs|
  {
    if cs == [] then [] else Step(window, cs[0]).1 + OpsOf(Step(window, cs[0]).0, cs[1..])
  }

  /** The window never holds more than three points between commands (four
      at the moment a segment is drawn). */
  lemma {:induction false} WindowBound(window: seq<Point>, cs: seq<Command>)
    requires |window| <= 3
    ensures |WindowAfter(window, cs)| <= 3
    decreases |cs|
  {
    if cs != [] {
      WindowBound(Step(window, cs[0]).0, cs[1..]);
    }
  }

  /** A line, Bezier or arc command forgets the pending curve points. */
  lemma ClearingCommand(window: seq<Point>, c: Command)
    requires c.kind !in {Curve2DTo, OtherCommand}
    ensures WindowAfter(window, [c]) == []
  {
    assert [c][1..] == [];
  }

  /** Four curve points in a row draw exactly one segment, through the
      middle two. */
  lemma FourCurvePoints(p1: Point, p2: Point, p3: Point, p4: Point)
    ensures var cs := [Command(Curve2DTo, p1, p1, p1), Command(Curve2DTo, p2, p2, p2),
                       Command(Curve2DTo, p3, p3, p3), Command(Curve2DTo, p4, p4, p4)];
      OpsOf([], cs) == [CatmullRom(p1, p2, p3, p4)] && WindowAfter([], cs) == [p2, p3, p4]
  {
    var cs := [Command(Curve2DTo, p1, p1, p1), Command(Curve2DTo, p2, p2, p2),
               Command(Curve2DTo, p3, p3, p3), Command(Curve2DTo, p4, p4, p4)];
    var c1, c2, c3, c4 := cs[0], cs[1], cs[2], cs[3];
    assert cs[1..] == [c2, c3, c4] && [c2, c3, c4][1..] == [c3, c4] && [c3, c4][1..] == [c4] && [c4][1..] == [];
    assert [] + [p1] == [p1] && [p1] + [p2] == [p1, p2] && [p1, p2] + [p3] == [p1, p2, p3];
    assert [p1, p2, p3] + [p4] == [p1, p2, p3, p4] && [p1, p2, p3, p4][1..] == [p2, p3, p4];
    assert Step([p1, p2, p3], c4) == ([p2, p3, p4], [CatmullRom(p1, p2, p3, p4)]);
    assert OpsOf([p1, p2, p3], [c4]) == [CatmullRom(p1, p2, p3, p4)];
    assert OpsOf([p1, p2], [c3, c4]) == [CatmullRom(p1, p2, p3, p4)];
    assert OpsOf([p1], [c2, c3, c4]) == [CatmullRom(p1, p2, p3, p4)];
    assert WindowAfter([p1, p2, p3], [c4]) == [p2, p3, p4];
    assert WindowAfter([p1, p2], [c3, c4]) == [p2, p3, p4];
    assert WindowAfter([p1], [c2, c3, c4]) == [p2, p3, p4];
  }

  /** Running a non-empty list of commands is running its first one, then
      the rest. */
  lemma RunFirst(window: seq<Point>, cs: seq<Command>, i: nat)
    requires i < |cs|
    ensures OpsOf(window, cs[i..]) == Step(window, cs[i]).1 + OpsOf(Step(window, cs[i]).0, cs[i + 1..])
    ensures WindowAfter(window, cs[i..]) == WindowAfter(Step(window, cs[i]).0, cs[i + 1..])
  {
    assert cs[i..][0] == cs[i] && cs[i..][1..] == cs[i + 1..];
  }

  class Renderer {
    /** Whether both the surface and the context exist. */
    var ready: bool
    var page: nat
    var curvePoints: seq<Point>

    ghost predicate Valid()
      reads this
    {
      |curvePoints| <= 3
    }

    /** `setup`: the surface is made (when `surfaceMade`), the page counter
        starts at 0. */
    constructor (surfaceMade: bool)
      ensures Valid() && ready == surfaceMade && page == 0 && curvePoints == []
    {
      ready := surfaceMade;
      page := 0;
      curvePoints := [];
    }

    /** `setupScreen`: without a surface nothing happens; the first call
        only moves the page counter to 1; later calls count the page and
        emit it, shown when the background is cleared and copied otherwise.
        The result says whether a page was emitted and whether it was
        shown. */
    method SetupScreen(clearBg: bool) returns (emitted: bool, shown: bool)
      modifies this`page
      ensures !ready ==> page == old(page) && !emitted
      ensures ready && old(page) == 0 ==> page == 1 && !emitted
      ensures ready && old(page) > 0 ==> page == old(page) + 1 && emitted && shown == clearBg
    {
      emitted, shown := false, false;
      if !ready {
        return;
      }
      if page == 0 {
        page := 1;
        return;
      } else {
        page := page + 1;
        emitted := true;
        shown := clearBg;
      }
    }

    /** One command of `drawPath`'s loop: lines, Beziers and arcs forget
        the pending curve points; a curve point is queued and, once four are
        queued, the segment through the middle two is drawn and the oldest
        point dropped. */
    method DrawCommand(c: Command) returns (emitted: seq<Op>)
      requires Valid()
      modifies this`curvePoints
      ensures Valid()
      ensures (curvePoints, emitted) == Step(old(curvePoints), c)
    {
      match c.kind {
        case Line2DTo =>
          curvePoints := [];
          emitted := [LineTo(c.to)];
        case Line3DTo =>
          curvePoints := [];
          emitted := [LineTo(c.to)];
        case Curve2DTo =>
          curvePoints := curvePoints + [c.to];
          emitted := [];
          if |curvePoints| == 4 {
            emitted := [CatmullRom(curvePoints[0], curvePoints[1], curvePoints[2], curvePoints[3])];
            curvePoints := curvePoints[1..];
          }
        case Bezier2DTo =>
          curvePoints := [];
          emitted := [CurveTo(c.cp1, c.cp2, c.to)];
        case QuadBezier2DTo =>
          curvePoints := [];
          emitted := [CurveTo(c.cp1, c.cp2, c.to)];
        case Arc2D =>
          curvePoints := [];
          emitted := [ArcTo(c.to)];
        case OtherCommand =>
          emitted := [];
      }
    }

    /** The command loop of `drawPath`: nothing is drawn without a surface;
        otherwise each command in turn updates the window and emits its
        operations. */
    method DrawCommands(commands: seq<Command>) returns (ops: seq<Op>)
      requires Valid()
      modifies this`curvePoints
      ensures Valid()
      ensures !ready ==> ops == [] && curvePoints == old(curvePoints)
      ensures ready ==> ops == OpsOf(old(curvePoints), commands) && curvePoints == WindowAfter(old(curvePoints), commands)
    {
      ops := [];
      if !ready {
        return;
      }
      ghost var start := curvePoints;
      var i := 0;
      while i < |commands|
        invariant 0 <= i <= |commands| && Valid()
        invariant OpsOf(start, commands) == ops + OpsOf(curvePoints, commands[i..])
        invariant WindowAfter(start, commands) == WindowAfter(curvePoints, commands[i..])
      {
        ops := DrawNext(commands, i, start, ops);
        i := i + 1;
      }
      assert commands[i..] == [];
    }

    /** One turn of the command loop: command `i` runs and its operations
        are appended, so the operations so far and those still to come
        together stay those of the whole run. */
    method DrawNext(commands: seq<Command>, i: nat, ghost start: seq<Point>, ops: seq<Op>) returns (ops': seq<Op>)
      requires i < |commands| && Valid()
      requires OpsOf(start, commands) == ops + OpsOf(curvePoints, commands[i..])
      requires WindowAfter(start, commands) == WindowAfter(curvePoints, commands[i..])
      modifies this`curvePoints
      ensures Valid()
      ensures OpsOf(start, commands) == ops' + OpsOf(curvePoints, commands[i + 1..])
      ensures WindowAfter(start, commands) == WindowAfter(curvePoints, commands[i + 1..])
    {
      RunFirst(curvePoints, commands, i);
      var emitted := DrawCommand(commands[i]);
      ops' := ops + emitted;
      assert ops + (emitted + OpsOf(curvePoints, commands[i + 1..])) == ops' + OpsOf(curvePoints, commands[i + 1..]);
    }
  }
}
