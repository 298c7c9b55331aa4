/**
 * The Coordinator ("BlackBoard"): the process that holds the displayed
 * state.  It keeps the last drone position it was told, a 20-slot obstacle
 * ring buffer and a 20-entry target list, rescales them when the terminal is
 * resized, clamps the drone into the window and, once per cycle, chooses at
 * most one repulsion message for the Controller.
 *
 * Positions are whole cells: the Controller reports them with `%d,%d`.
 * The Euclidean test `distance < rph` is taken on squares, and a repulsion
 * message carries the squared distance.
 */
module Coordinator {
  import opened CText

  /** Capacity of the obstacle ring and of the target list. */
  const MaxItems := 20

  datatype Point = Point(x: int, y: int)

  /** What one channel yields in a cycle: nothing ready, end of file, or a message. */
  datatype Read<T> = NotReady | Closed | Data(value: T)

  // ---------------------------------------------------------------------
  // Arithmetic of the window

  /** C's conversion of an exact quotient to `int`: truncation toward zero. */
  function TruncDiv(a: int, b: int): int
    requires b > 0
  {
    if a >= 0 then a / b else -((-a) / b)
  }

  /** TruncDiv rounds the exact quotient toward zero: the remainder has the sign of a and is smaller than b. */
  lemma TruncDivTruncates(a: int, b: int)
    requires b > 0
    ensures var q := TruncDiv(a, b);
      && (a >= 0 ==> 0 <= q && 0 <= a - q * b < b)
      && (a < 0 ==> q <= 0 && -b < a - q * b <= 0)
  {
    if a >= 0 {
      DivBounds(a, b);
    } else {
      DivBounds(-a, b);
      NegTimes((-a) / b, b);
    }
  }

  lemma DivBounds(a: int, b: int)
    requires a >= 0 && b > 0
    ensures 0 <= a / b && 0 <= a - (a / b) * b < b
  {
  }

  lemma NegTimes(q: int, b: int)
    ensures (-q) * b == -(q * b)
  {
  }

  /**
   * The clamp applied to every stored obstacle or target coordinate: a value
   * on or past the border cell `bound - 1` moves to `bound - 2`.  There is no
   * lower clamp.
   */
  function ClampItem(v: int, bound: int): (r: int)
    ensures r <= bound - 2
    ensures r == v || r == bound - 2
    ensures v <= bound - 2 ==> r == v
  {
    if v >= bound - 1 then bound - 2 else v
  }

  /** A coordinate moved from a window of size `from` to one of size `to`, then clamped. */
  function Rescale(v: int, from: int, to: int): int
    requires from > 0
  {
    ClampItem(TruncDiv(v * to, from), to)
  }

  function RescalePoint(p: Point, fromW: int, fromH: int, toW: int, toH: int): Point
    requires fromW > 0 && fromH > 0
  {
    Point(Rescale(p.x, fromW, toW), Rescale(p.y, fromH, toH))
  }

  function RescaleAll(ps: seq<Point>, fromW: int, fromH: int, toW: int, toH: int): (r: seq<Point>)
    requires fromW > 0 && fromH > 0
    ensures |r| == |ps|
    ensures forall i :: 0 <= i < |ps| ==> r[i] == RescalePoint(ps[i], fromW, fromH, toW, toH)
  {
    seq(|ps|, i requires 0 <= i < |ps| => RescalePoint(ps[i], fromW, fromH, toW, toH))
  }

  /** The drawing window for a terminal of H rows and W columns: (height, width). */
  function DisplayBounds(H: int, W: int): (b: (int, int))
    ensures b.0 >= 3 && b.1 >= 3
    ensures H >= 9 ==> b.0 == H - 6
    ensures W >= 13 ==> b.1 == W - 10
    ensures H < 9 ==> b.0 == if 3 <= H <= 6 then H else 3
    ensures W < 13 ==> b.1 == if 3 <= W <= 10 then W else 3
  {
    var wh := if H > 6 then H - 6 else H;
    var ww := if W > 10 then W - 10 else W;
    (if wh < 3 then 3 else wh, if ww < 3 then 3 else ww)
  }

  predicate BelowEdges(p: Point, ww: int, wh: int) {
    p.x <= ww - 2 && p.y <= wh - 2
  }

  /** Inside the drawing area and off its right and bottom border. */
  predicate InDisplay(p: Point, ww: int, wh: int) {
    0 <= p.x <= ww - 2 && 0 <= p.y <= wh - 2
  }

  /** Every rescaled point lies below the new right and bottom edges; a non-negative one stays inside. */
  lemma RescaleInBounds(p: Point, fromW: int, fromH: int, toW: int, toH: int)
    requires fromW > 0 && fromH > 0 && toW >= 3 && toH >= 3
    ensures BelowEdges(RescalePoint(p, fromW, fromH, toW, toH), toW, toH)
    ensures 0 <= p.x && 0 <= p.y ==> InDisplay(RescalePoint(p, fromW, fromH, toW, toH), toW, toH)
  {
    if 0 <= p.x && 0 <= p.y {
      assert p.x * toW >= 0 && p.y * toH >= 0;
      TruncDivTruncates(p.x * toW, fromW);
      TruncDivTruncates(p.y * toH, fromH);
    }
  }

  /** A generator coordinate (5,5) in a 10x10 window lands on (10,10) of a 20x20 display. */
  lemma IncomingExample()
    ensures RescalePoint(Point(5, 5), 10, 10, 20, 20) == Point(10, 10)
  {
  }

  // ---------------------------------------------------------------------
  // Obstacle ring and target list as sequences

  /** The most recent MaxItems elements of s. */
  function Recent(s: seq<Point>): (r: seq<Point>)
    ensures |r| == if |s| <= MaxItems then |s| else MaxItems
  {
    if |s| <= MaxItems then s else s[|s| - MaxItems..]
  }

  /** Keeping the most recent items after each insertion keeps the most recent items of the whole history. */
  lemma RecentAppend(s: seq<Point>, p: Point)
    ensures Recent(Recent(s) + [p]) == Recent(s + [p])
  {
    if |s| > MaxItems {
      assert (Recent(s) + [p])[1..] == (s + [p])[|s| + 1 - MaxItems..];
    }
  }

  /** The slot layout of the ring: head is the next slot to write; before the ring is full it equals count. */
  predicate RingShape(head: int, count: int) {
    0 <= head < MaxItems && 0 <= count <= MaxItems && (count < MaxItems ==> head == count)
  }

  /** The obstacles in insertion order, oldest first. */
  function Ring(slots: seq<Point>, head: int, count: int): (r: seq<Point>)
    requires |slots| == MaxItems && RingShape(head, count)
    ensures |r| == count
  {
    if count < MaxItems then slots[..count] else slots[head..] + slots[..head]
  }

  /**
   * Writing slot `head` and advancing head modulo 20 appends to the ring and,
   * once the ring is full, drops exactly its oldest entry.
   */
  lemma RingInsert(slots: seq<Point>, head: int, count: int, p: Point)
    requires |slots| == MaxItems && RingShape(head, count)
    ensures RingShape((head + 1) % MaxItems, if count < MaxItems then count + 1 else count)
    ensures Ring(slots[head := p], (head + 1) % MaxItems, if count < MaxItems then count + 1 else count)
         == Recent(Ring(slots, head, count) + [p])
  {
    var s' := slots[head := p];
    var h' := (head + 1) % MaxItems;
    if count < MaxItems - 1 {
      assert s'[..count + 1] == slots[..count] + [p];
    } else if count == MaxItems - 1 {
      assert h' == 0;
      assert s'[0..] + s'[..0] == s';
      assert s' == slots[..count] + [p];
    } else {
      var old_ := slots[head..] + slots[..head];
      assert Recent(old_ + [p]) == (old_ + [p])[1..];
      if head == MaxItems - 1 {
        assert h' == 0;
        assert s'[0..] + s'[..0] == s';
        assert (old_ + [p])[1..] == slots[..head] + [p];
        assert s' == slots[..head] + [p];
      } else {
        assert h' == head + 1;
        assert s'[h'..] == slots[head + 1..];
        assert s'[..h'] == slots[..head] + [p];
        assert (old_ + [p])[1..] == slots[head + 1..] + slots[..head] + [p];
      }
    }
  }

  /** Rescaling every used slot rescales the ring in place: same length, same order. */
  lemma RingRescale(before: seq<Point>, after: seq<Point>, head: int, count: int,
                    fromW: int, fromH: int, toW: int, toH: int)
    requires fromW > 0 && fromH > 0
    requires |before| == MaxItems && |after| == MaxItems && RingShape(head, count)
    requires after[..count] == RescaleAll(before[..count], fromW, fromH, toW, toH)
    ensures Ring(after, head, count) == RescaleAll(Ring(before, head, count), fromW, fromH, toW, toH)
  {
    if count == MaxItems {
      assert after[..count] == after && before[..count] == before;
    }
  }

  /** The target list after one insertion: append, dropping index 0 when the list is full. */
  lemma TargetInsertIsRecent(ts: seq<Point>, p: Point)
    requires |ts| <= MaxItems
    ensures Recent(ts + [p]) == if |ts| < MaxItems then ts + [p] else ts[1..] + [p]
  {
  }

  /** ts without the entries equal to d, the others in their original order. */
  function Without(ts: seq<Point>, d: Point): (r: seq<Point>)
    ensures |r| <= |ts|
  {
    if ts == [] then []
    else (if ts[0] == d then [] else [ts[0]]) + Without(ts[1..], d)
  }

  /** An entry survives removal exactly when it was in the list and differs from d. */
  lemma {:induction false} WithoutMembers(ts: seq<Point>, d: Point, q: Point)
    ensures q in Without(ts, d) <==> q in ts && q != d
  {
    if ts != [] {
      WithoutMembers(ts[1..], d, q);
      assert ts == [ts[0]] + ts[1..];
    }
  }

  function Occurrences(ts: seq<Point>, d: Point): nat {
    if ts == [] then 0 else (if ts[0] == d then 1 else 0) + Occurrences(ts[1..], d)
  }

  /** Removal shrinks the list by exactly the number of matching entries. */
  lemma {:induction false} WithoutLength(ts: seq<Point>, d: Point)
    ensures |Without(ts, d)| == |ts| - Occurrences(ts, d)
  {
    if ts != [] {
      WithoutLength(ts[1..], d);
    }
  }

  /** Removal works piecewise, so the survivors keep their relative order. */
  lemma {:induction false} WithoutAppend(a: seq<Point>, b: seq<Point>, d: Point)
    ensures Without(a + b, d) == Without(a, d) + Without(b, d)
  {
    if a == [] {
      assert a + b == b;
    } else {
      assert (a + b)[0] == a[0];
      assert (a + b)[1..] == a[1..] + b;
      WithoutAppend(a[1..], b, d);
    }
  }

  // ---------------------------------------------------------------------
  // Repulsion

  /** A repulsion message "distance,dx,dy"; the distance sent is the square root of distSq. */
  datatype Repulsion = Repulsion(distSq: int, dx: int, dy: int)

  /** `distance < rph` for the obstacle o and the drone at (x, y). */
  predicate Close(o: Point, x: int, y: int, rph: int) {
    var dx := x - o.x;
    var dy := y - o.y;
    0 < rph && dx * dx + dy * dy < rph * rph
  }

  /** The lowest index of an obstacle within the repulsion radius. */
  function FirstClose(obs: seq<Point>, x: int, y: int, rph: int): (r: Option<nat>)
    ensures r.Some? ==> r.value < |obs| && Close(obs[r.value], x, y, rph)
    ensures r.Some? ==> forall j :: 0 <= j < r.value ==> !Close(obs[j], x, y, rph)
    ensures r.None? ==> forall j :: 0 <= j < |obs| ==> !Close(obs[j], x, y, rph)
  {
    if obs == [] then None
    else if Close(obs[0], x, y, rph) then Some(0)
    else match FirstClose(obs[1..], x, y, rph)
      case None => None
      case Some(i) => Some(i + 1)
  }

  /** Displacement from the obstacle to the drone, the distance floored at 1. */
  function ObstaclePush(o: Point, x: int, y: int): Repulsion {
    var dx := x - o.x;
    var dy := y - o.y;
    Repulsion(if dx * dx + dy * dy <= 1 then 1 else dx * dx + dy * dy, dx, dy)
  }

  /** A push of size d >= 1 along one axis, pointing along (sx, sy). */
  function EdgePush(d: int, sx: int, sy: int): Repulsion {
    var dist := if d < 1 then 1 else d;
    Repulsion(dist * dist, sx * dist, sy * dist)
  }

  /** Boundary repulsion: left before right; top or bottom only when no side edge fired. */
  function BoundaryPush(x: int, y: int, ww: int, wh: int, rph: int): Option<Repulsion> {
    if x < rph then Some(EdgePush(x, 1, 0))
    else if x > ww - rph then Some(EdgePush(ww - x, -1, 0))
    else if y < rph then Some(EdgePush(y, 0, 1))
    else if y > wh - rph then Some(EdgePush(wh - y, 0, -1))
    else None
  }

  /** The one repulsion message of a cycle, if any: obstacles take priority over the boundary. */
  function ChooseRepulsion(obs: seq<Point>, x: int, y: int, ww: int, wh: int, rph: int): Option<Repulsion> {
    match FirstClose(obs, x, y, rph)
    case Some(i) => Some(ObstaclePush(obs[i], x, y))
    case None => BoundaryPush(x, y, ww, wh, rph)
  }

  /** The lowest-index obstacle within the radius wins, whatever the boundaries say. */
  lemma ObstacleWins(obs: seq<Point>, x: int, y: int, ww: int, wh: int, rph: int, i: nat)
    requires i < |obs| && Close(obs[i], x, y, rph)
    requires forall j :: 0 <= j < i ==> !Close(obs[j], x, y, rph)
    ensures ChooseRepulsion(obs, x, y, ww, wh, rph) == Some(ObstaclePush(obs[i], x, y))
    ensures ChooseRepulsion(obs, x, y, ww, wh, rph).value.distSq >= 1
  {
    var r := FirstClose(obs, x, y, rph);
    assert r.Some?;
  }

  /**
   * With no obstacle in range, a message is sent exactly when the drone is within
   * rph of an edge; it pushes inward along one axis, and its distance is at least 1.
   */
  lemma BoundaryPushesInward(obs: seq<Point>, x: int, y: int, ww: int, wh: int, rph: int)
    requires forall j :: 0 <= j < |obs| ==> !Close(obs[j], x, y, rph)
    ensures var r := ChooseRepulsion(obs, x, y, ww, wh, rph);
      && (r.Some? <==> x < rph || x > ww - rph || y < rph || y > wh - rph)
      && (r.Some? ==> r.value.distSq >= 1 && (r.value.dx == 0 || r.value.dy == 0))
      && (r.Some? && r.value.dx > 0 ==> x < rph)
      && (r.Some? && r.value.dx < 0 ==> ww - rph < x && rph <= x)
      && (r.Some? && r.value.dy > 0 ==> y < rph && rph <= x <= ww - rph)
      && (r.Some? && r.value.dy < 0 ==> wh - rph < y && rph <= y && rph <= x <= ww - rph)
      && (r.Some? ==> r.value.dx != 0 || r.value.dy != 0)
  {
    assert FirstClose(obs, x, y, rph).None?;
  }

  /** The `%1s` read of a command: its first non-space character, or NUL when there is none. */
  function CommandKey(bytes: seq<char>): char {
    match ScanWord(CString(bytes))
    case None => '\0'
    case Some((w, _)) => w[0]
  }

  /** How the pause sub-loop ends. */
  datatype PauseEnd = Resumed | Quit | StillPaused

  /**
   * The pause sub-loop over what the command channel delivers: `u` resumes,
   * `q` or a closed channel quits, anything else is ignored.
   */
  function PauseOutcome(rs: seq<Read<seq<char>>>): PauseEnd {
    if rs == [] then StillPaused
    else match rs[0]
      case Closed => Quit
      case NotReady => PauseOutcome(rs[1..])
      case Data(bytes) =>
        if CommandKey(bytes) == 'u' then Resumed
        else if CommandKey(bytes) == 'q' then Quit
        else PauseOutcome(rs[1..])
  }

  /** Everything the Coordinator's channels and terminal deliver during one cycle. */
  datatype CycleInput = CycleInput(
    shouldExit: bool,                 // termination requested by the launcher
    resize: Option<(int, int)>,       // KEY_RESIZE, with the new terminal rows and columns
    selectFailed: bool,               // the channel poll returned -1
    command: Read<seq<char>>,         // the input relay's channel
    drone: Read<Point>,               // the Controller's "%d,%d" report, parsed
    obstacle: Read<Point>,            // the obstacle generator's "%d,%d", parsed
    target: Read<Point>,              // the target generator's "%d,%d", parsed
    pause: seq<Read<seq<char>>>)      // the command channel while paused

  /** What one cycle sends to the Controller: position overrides in order, and at most one repulsion. */
  datatype CycleOutput = CycleOutput(overrides: seq<Point>, repulsion: Option<Repulsion>)

  /** The point a channel delivered this cycle, if any. */
  function Got(r: Read<Point>): (g: Option<Point>)
    ensures g.Some? <==> r.Data?
    ensures g.Some? ==> g.value == r.value
  {
    if r.Data? then Some(r.value) else None
  }

  /** The ring or list after a generator message, if one came: the point scaled, clamped and appended, the oldest dropped past capacity. */
  function Added(ps: seq<Point>, g: Option<Point>, genW: int, genH: int, ww: int, wh: int): (r: seq<Point>)
    requires genW > 0 && genH > 0
    ensures g.None? ==> r == ps
    ensures g.Some? ==> |r| > 0 && r[|r| - 1] == RescalePoint(g.value, genW, genH, ww, wh)
    ensures |r| <= MaxItems || r == ps
  {
    if g.Some? then Recent(ps + [RescalePoint(g.value, genW, genH, ww, wh)]) else ps
  }

  /** The drone's position after its report: adopted unless a resize asked to skip it. */
  function Reported(p: Point, skip: bool, report: Option<Point>): (q: Point)
    ensures q == p || (report.Some? && q == report.value)
    ensures skip ==> q == p
  {
    if report.Some? && !skip then report.value else p
  }

  /**
   * The drone clamp on one axis of `bound` cells: on or past the last cell it
   * moves to `bound - 1`, otherwise at or below 0 it moves to 0.
   */
  function ClampAxis(v: int, bound: int): (r: int)
    ensures bound > 0 ==> 0 <= r <= bound - 1
    ensures 0 < v < bound - 1 ==> r == v
    ensures r != v ==> r == bound - 1 || r == 0
    ensures v >= bound - 1 ==> r == bound - 1
  {
    if v >= bound - 1 then bound - 1 else if v <= 0 then 0 else v
  }

  /** The position overrides the clamp sends from `p`: one per axis it fires on, each with the position as it then stands. */
  function ClampOverrides(p: Point, ww: int, wh: int): (r: seq<Point>)
    ensures |r| <= 2
    ensures r == [] <==> 0 < p.x < ww - 1 && 0 < p.y < wh - 1
    ensures forall i :: 0 <= i < |r| ==> r[i].x == ClampAxis(p.x, ww)
    ensures |r| > 0 ==> r[|r| - 1] == Point(ClampAxis(p.x, ww), if 0 < p.y < wh - 1 then p.y else ClampAxis(p.y, wh))
  {
    var fx := p.x >= ww - 1 || p.x <= 0;
    var fy := p.y >= wh - 1 || p.y <= 0;
    (if fx then [Point(ClampAxis(p.x, ww), p.y)] else []) + (if fy then [Point(ClampAxis(p.x, ww), ClampAxis(p.y, wh))] else [])
  }

  /**
   * The part of the Coordinator's state one main-loop iteration changes, as a
   * value: the obstacles and targets oldest first, the drone position, the
   * skip-next-report flag, the window and whether the loop goes on.
   */
  datatype Board = Board(ring: seq<Point>, list: seq<Point>, pos: Point, skip: bool,
                         ww: int, wh: int, running: bool)

  function Centre(ww: int, wh: int): Point {
    Point(ww / 2, wh / 2)
  }

  /** A terminal resize of H rows and W columns: bounds, items rescaled, drone centred, next report skipped. */
  function ResizeStep(b: Board, H: int, W: int): (r: Board)
    requires b.ww > 0 && b.wh > 0
    ensures (r.wh, r.ww) == DisplayBounds(H, W)
    ensures |r.ring| == |b.ring| && |r.list| == |b.list|
    ensures r.pos == Centre(r.ww, r.wh) && r.skip && r.running == b.running
  {
    var bounds := DisplayBounds(H, W);
    Board(RescaleAll(b.ring, b.ww, b.wh, bounds.1, bounds.0), RescaleAll(b.list, b.ww, b.wh, bounds.1, bounds.0),
          Centre(bounds.1, bounds.0), true, bounds.1, bounds.0, b.running)
  }

  /** The reads of the ready channels: the drone report, then a new obstacle, then a new target. */
  function ReceiveStep(b: Board, input: CycleInput, genW: int, genH: int): (r: Board)
    requires genW > 0 && genH > 0
    ensures |b.ring| <= MaxItems ==> |r.ring| <= MaxItems
    ensures |b.list| <= MaxItems ==> |r.list| <= MaxItems
    ensures b.skip ==> r.pos == b.pos
    ensures r.ww == b.ww && r.wh == b.wh && r.running == b.running
  {
    b.(ring := Added(b.ring, Got(input.obstacle), genW, genH, b.ww, b.wh),
       list := Added(b.list, Got(input.target), genW, genH, b.ww, b.wh),
       pos := Reported(b.pos, b.skip, Got(input.drone)),
       skip := b.skip && !input.drone.Data?)
  }

  /** Where the drone stands before the clamp: the centre after `a`, else where it was. */
  function Steered(b: Board, key: char): Point {
    if key == 'a' then Centre(b.ww, b.wh) else b.pos
  }

  /** Target removal at the drone's cell, `a`, `p` and the drone clamp. */
  function RespondStep(b: Board, key: char, pause: seq<Read<seq<char>>>): (r: Board)
    ensures b.ww > 0 && b.wh > 0 ==> 0 <= r.pos.x < b.ww && 0 <= r.pos.y < b.wh
    ensures |r.list| <= |b.list|
    ensures r.ring == b.ring && r.skip == b.skip && r.ww == b.ww && r.wh == b.wh
    ensures r.running ==> b.running
  {
    var p := Steered(b, key);
    b.(list := Without(b.list, b.pos),
       pos := Point(ClampAxis(p.x, b.ww), ClampAxis(p.y, b.wh)),
       running := b.running && !(key == 'p' && PauseOutcome(pause) == Quit))
  }

  /** The overrides the second half sends: the centre after `a`, then one per clamp. */
  function RespondOverrides(b: Board, key: char): seq<Point> {
    (if key == 'a' then [Centre(b.ww, b.wh)] else []) + ClampOverrides(Steered(b, key), b.ww, b.wh)
  }

  /** A channel read returned 0 bytes: its writer is gone. */
  predicate AnyClosed(input: CycleInput) {
    input.command.Closed? || input.drone.Closed? || input.obstacle.Closed? || input.target.Closed?
  }

  function Resized(b: Board, input: CycleInput): Board
    requires b.ww > 0 && b.wh > 0
  {
    if input.resize.Some? then ResizeStep(b, input.resize.value.0, input.resize.value.1) else b
  }

  /** The state after both reads and the end-of-loop checks of a cycle that got past the poll. */
  function Received(b: Board, input: CycleInput, genW: int, genH: int): (r: Board)
    requires b.ww > 0 && b.wh > 0 && genW > 0 && genH > 0
  {
    var b1 := ReceiveStep(Resized(b, input), input, genW, genH);
    b1.(running := b1.running && !AnyClosed(input) && CycleKey(input) != 'q')
  }

  /**
   * One iteration of the main loop.  A termination request or a failed poll
   * leave the loop; the model records that by clearing `running`.
   */
  function CycleStep(b: Board, input: CycleInput, genW: int, genH: int): (r: Board)
    requires b.ww > 0 && b.wh > 0 && genW > 0 && genH > 0
  {
    if input.shouldExit then b.(running := false)
    else if input.selectFailed then Resized(b, input).(running := false)
    else RespondStep(Received(b, input, genW, genH), CycleKey(input), input.pause)
  }

  /** The position overrides one iteration sends to the Controller, in order. */
  function CycleOverrides(b: Board, input: CycleInput, genW: int, genH: int): seq<Point>
    requires b.ww > 0 && b.wh > 0 && genW > 0 && genH > 0
  {
    if input.shouldExit then []
    else
      var resized := if input.resize.Some? then [Resized(b, input).pos] else [];
      if input.selectFailed then resized
      else resized + RespondOverrides(Received(b, input, genW, genH), CycleKey(input))
  }

  /**
   * After a cycle that got past the poll, the target list holds exactly the
   * received targets other than those on the drone's reported cell.
   */
  lemma CycleRemovesReached(b: Board, input: CycleInput, genW: int, genH: int, q: Point)
    requires b.ww > 0 && b.wh > 0 && genW > 0 && genH > 0
    requires !input.shouldExit && !input.selectFailed
    ensures var m := Received(b, input, genW, genH);
      q in CycleStep(b, input, genW, genH).list <==> q in m.list && q != m.pos
  {
    var m := Received(b, input, genW, genH);
    WithoutMembers(m.list, m.pos, q);
  }

  /**
   * The Controller is told where the drone stands: when a cycle sends
   * overrides the last one is the Coordinator's new position, and when it
   * sends none the position is the Controller's own report.
   */
  lemma OverridesTrackPosition(b: Board, input: CycleInput, genW: int, genH: int)
    requires b.ww >= 3 && b.wh >= 3 && genW > 0 && genH > 0
    requires !input.shouldExit
    ensures var os := CycleOverrides(b, input, genW, genH);
      var r := CycleStep(b, input, genW, genH);
      if os == [] then r.pos == Reported(b.pos, b.skip, Got(input.drone)) || input.selectFailed
      else os[|os| - 1] == r.pos
  {
  }

  // ---------------------------------------------------------------------
  // The Coordinator's state

  class Blackboard {
    /** The obstacle ring buffer; slot obsHead is written next. */
    const obstacles: array<Point>
    var obsHead: int
    var obsCount: int
    /** The target list, oldest first. */
    const targets: array<Point>
    var tarCount: int
    /** The drawing window, width and height. */
    var ww: int
    var wh: int
    /** The window size of the generators' coordinate space (parameter file lines 1 and 2). */
    const genW: int
    const genH: int
    /** Repulsion radius (parameter file line 3). */
    const rph: int
    /** The drone position last reported. */
    var x: int
    var y: int
    var skipDroneUpdate: bool
    var running: bool

    ghost predicate Valid()
      reads this
    {
      && obstacles.Length == MaxItems && targets.Length == MaxItems && obstacles != targets
      && RingShape(obsHead, obsCount)
      && 0 <= tarCount <= MaxItems
      && ww >= 3 && wh >= 3
      && genW > 0 && genH > 0
    }

    /** The obstacles, oldest first. */
    ghost function ObstacleRing(): seq<Point>
      reads this`obsHead, this`obsCount, obstacles
      requires obstacles.Length == MaxItems && RingShape(obsHead, obsCount)
    {
      Ring(obstacles[..], obsHead, obsCount)
    }

    ghost function Targets(): seq<Point>
      reads this`tarCount, targets
      requires 0 <= tarCount <= targets.Length
    {
      targets[..tarCount]
    }

    /** The fields a main-loop iteration changes, as a value. */
    ghost function State(): Board
      reads this, obstacles, targets
      requires Valid()
    {
      Board(ObstacleRing(), Targets(), Point(x, y), skipDroneUpdate, ww, wh, running)
    }

    /** No stored item touches the right or bottom border. */
    ghost predicate ItemsBelowEdges()
      reads this, obstacles, targets
      requires Valid()
    {
      AllBelowEdges(ObstacleRing(), ww, wh) && AllBelowEdges(Targets(), ww, wh)
    }

    /** Every stored item lies in [0, bound - 2] on both axes. */
    ghost predicate ItemsInDisplay()
      reads this, obstacles, targets
      requires Valid()
    {
      AllInDisplay(ObstacleRing(), ww, wh) && AllInDisplay(Targets(), ww, wh)
    }

    /**
     * Start-up for a terminal of H rows and W columns: empty ring and list,
     * and the drone at the window centre, which is also the position the
     * start-up handshake sends to the Controller.
     */
    constructor (H: int, W: int, genWidth: int, genHeight: int, radius: int)
      requires genWidth > 0 && genHeight > 0
      ensures Valid() && fresh(obstacles) && fresh(targets)
      ensures ObstacleRing() == [] && Targets() == []
      ensures (wh, ww) == DisplayBounds(H, W)
      ensures x == ww / 2 && y == wh / 2
      ensures genW == genWidth && genH == genHeight && rph == radius
      ensures running && !skipDroneUpdate
    {
      obstacles := new Point[MaxItems](_ => Point(0, 0));
      targets := new Point[MaxItems](_ => Point(0, 0));
      obsHead, obsCount, tarCount := 0, 0, 0;
      var b := DisplayBounds(H, W);
      wh, ww := b.0, b.1;
      genW, genH, rph := genWidth, genHeight, radius;
      x, y := b.1 / 2, b.0 / 2;
      skipDroneUpdate := false;
      running := true;
    }

    /** A message "x,y" from the obstacle generator: scale, clamp, write the head slot. */
    method InsertObstacle(g: Point)
      requires Valid()
      modifies this, obstacles
      ensures Valid()
      ensures State() == old(State()).(ring := Recent(old(ObstacleRing()) + [RescalePoint(g, genW, genH, ww, wh)]))
      ensures var p := RescalePoint(g, genW, genH, ww, wh);
        && obstacles[..] == old(obstacles[..])[old(obsHead) := p]
        && ObstacleRing() == Recent(old(ObstacleRing()) + [p])
      ensures obsHead == (old(obsHead) + 1) % MaxItems
      ensures obsCount == if old(obsCount) < MaxItems then old(obsCount) + 1 else MaxItems
      ensures tarCount == old(tarCount) && ww == old(ww) && wh == old(wh)
      ensures x == old(x) && y == old(y) && skipDroneUpdate == old(skipDroneUpdate) && running == old(running)
      ensures old(ItemsBelowEdges()) ==> ItemsBelowEdges()
      ensures old(ItemsInDisplay()) && 0 <= g.x && 0 <= g.y ==> ItemsInDisplay()
    {
      var p := RescalePoint(g, genW, genH, ww, wh);
      ghost var ring := ObstacleRing();
      ghost var ts := Targets();
      InsertBounds(ring, g, genW, genH, ww, wh);
      obsHead, obsCount := PushRing(obstacles, obsHead, obsCount, p);
      assert ObstacleRing() == Recent(ring + [p]);
      assert Targets() == ts;
    }

    /** A message "x,y" from the target generator: scale, clamp, append with eviction of index 0. */
    method InsertTarget(g: Point)
      requires Valid()
      modifies this, targets
      ensures Valid()
      ensures State() == old(State()).(list := Recent(old(Targets()) + [RescalePoint(g, genW, genH, ww, wh)]))
      ensures Targets() == Recent(old(Targets()) + [RescalePoint(g, genW, genH, ww, wh)])
      ensures tarCount == if old(tarCount) < MaxItems then old(tarCount) + 1 else MaxItems
      ensures obsHead == old(obsHead) && obsCount == old(obsCount) && ww == old(ww) && wh == old(wh)
      ensures x == old(x) && y == old(y) && skipDroneUpdate == old(skipDroneUpdate) && running == old(running)
      ensures old(ItemsBelowEdges()) ==> ItemsBelowEdges()
      ensures old(ItemsInDisplay()) && 0 <= g.x && 0 <= g.y ==> ItemsInDisplay()
    {
      var p := RescalePoint(g, genW, genH, ww, wh);
      ghost var ring := ObstacleRing();
      ghost var before := Targets();
      InsertBounds(before, g, genW, genH, ww, wh);
      tarCount := PushTarget(targets, tarCount, p);
      assert ObstacleRing() == ring;
      assert Targets() == Recent(before + [p]);
    }

    /**
     * Removes every target on the drone's cell, compacting the list and
     * keeping the order of the others.
     */
    method RemoveReachedTargets()
      requires Valid()
      modifies this, targets
      ensures Valid()
      ensures State() == old(State()).(list := Without(old(Targets()), Point(x, y)))
      ensures Targets() == Without(old(Targets()), Point(x, y))
      ensures tarCount == old(tarCount) - Occurrences(old(Targets()), Point(x, y))
      ensures obsHead == old(obsHead) && obsCount == old(obsCount) && ww == old(ww) && wh == old(wh)
      ensures x == old(x) && y == old(y) && skipDroneUpdate == old(skipDroneUpdate) && running == old(running)
      ensures old(ItemsBelowEdges()) ==> ItemsBelowEdges()
      ensures old(ItemsInDisplay()) ==> ItemsInDisplay()
    {
      ghost var ring := ObstacleRing();
      ghost var before := Targets();
      WithoutLength(before, Point(x, y));
      WithoutBounds(before, Point(x, y), ww, wh);
      tarCount := RemoveMatching(targets, tarCount, Point(x, y));
      assert ObstacleRing() == ring;
      assert Targets() == Without(before, Point(x, y));
    }

    /**
     * A terminal resize: new window bounds, every stored obstacle and target
     * rescaled per axis and clamped, the drone re-centred, the centre sent
     * as an override, and the next drone report marked to be skipped.
     */
    method Resize(H: int, W: int) returns (override: Point)
      requires Valid()
      modifies this, obstacles, targets
      ensures Valid()
      ensures State() == ResizeStep(old(State()), H, W)
      ensures (wh, ww) == DisplayBounds(H, W)
      ensures ObstacleRing() == RescaleAll(old(ObstacleRing()), old(ww), old(wh), ww, wh)
      ensures Targets() == RescaleAll(old(Targets()), old(ww), old(wh), ww, wh)
      ensures x == ww / 2 && y == wh / 2 && override == Point(x, y)
      ensures skipDroneUpdate
      ensures obsHead == old(obsHead) && obsCount == old(obsCount) && tarCount == old(tarCount)
      ensures running == old(running)
      ensures ItemsBelowEdges()
      ensures old(ItemsInDisplay()) ==> ItemsInDisplay()
    {
      var oldW, oldH := ww, wh;
      var b := DisplayBounds(H, W);
      ghost var ring := ObstacleRing();
      ghost var tBefore := Targets();
      RescaleAllBounds(ring, oldW, oldH, b.1, b.0);
      RescaleAllBounds(tBefore, oldW, oldH, b.1, b.0);
      RescaleRing(obstacles, obsHead, obsCount, oldW, oldH, b.1, b.0);
      RescaleSlots(targets, tarCount, oldW, oldH, b.1, b.0);
      wh, ww := b.0, b.1;
      assert ObstacleRing() == RescaleAll(ring, oldW, oldH, ww, wh);
      assert Targets() == RescaleAll(tBefore, oldW, oldH, ww, wh);
      x := ww / 2;
      y := wh / 2;
      override := Point(x, y);
      skipDroneUpdate := true;
    }

    /** A position report from the Controller; the first one after a resize is discarded. */
    method DronePosition(p: Point)
      requires Valid()
      modifies this
      ensures Valid()
      ensures State() == old(State()).(pos := Reported(Point(old(x), old(y)), old(skipDroneUpdate), Some(p)), skip := false)
      ensures old(skipDroneUpdate) ==> x == old(x) && y == old(y)
      ensures !old(skipDroneUpdate) ==> x == p.x && y == p.y
      ensures !skipDroneUpdate
      ensures obsHead == old(obsHead) && obsCount == old(obsCount) && tarCount == old(tarCount)
      ensures ww == old(ww) && wh == old(wh) && running == old(running)
    {
      if skipDroneUpdate {
        skipDroneUpdate := false;
      } else {
        x, y := p.x, p.y;
      }
    }

    /**
     * Clamps the drone into [0, ww-1] x [0, wh-1].  Each clamp that fires,
     * the `<= 0` ones included at exactly 0, sends the position as it then
     * stands as an override.
     */
    method ClampDrone() returns (overrides: seq<Point>)
      requires Valid()
      modifies this
      ensures Valid()
      ensures State() == old(State()).(pos := Point(ClampAxis(old(x), ww), ClampAxis(old(y), wh)))
      ensures old(x) >= ww - 1 ==> x == ww - 1
      ensures old(x) <= 0 ==> x == 0
      ensures old(y) >= wh - 1 ==> y == wh - 1
      ensures old(y) <= 0 ==> y == 0
      ensures x == ClampAxis(old(x), ww) && y == ClampAxis(old(y), wh)
      ensures overrides == ClampOverrides(Point(old(x), old(y)), ww, wh)
      ensures obsHead == old(obsHead) && obsCount == old(obsCount) && tarCount == old(tarCount)
      ensures ww == old(ww) && wh == old(wh) && running == old(running)
      ensures skipDroneUpdate == old(skipDroneUpdate)
    {
      overrides := [];
      if x >= ww - 1 {
        x := ww - 1;
        overrides := overrides + [Point(x, y)];
      } else if x <= 0 {
        x := 0;
        overrides := overrides + [Point(x, y)];
      }
      if y >= wh - 1 {
        y := wh - 1;
        overrides := overrides + [Point(x, y)];
      } else if y <= 0 {
        y := 0;
        overrides := overrides + [Point(x, y)];
      }
    }

    /**
     * The per-cycle repulsion choice: the obstacle loop in slot order with the
     * `repulsion_sent` flag, then the boundary checks if nothing was sent.
     */
    method ComputeRepulsion() returns (msg: Option<Repulsion>)
      requires Valid()
      ensures msg == ChooseRepulsion(obstacles[..obsCount], x, y, ww, wh, rph)
    {
      var sent := false;
      msg := None;
      var i := 0;
      while i < obsCount
        invariant 0 <= i <= obsCount
        invariant sent == msg.Some?
        invariant !sent ==> FirstClose(obstacles[..i], x, y, rph).None?
        invariant sent ==> var f := FirstClose(obstacles[..i], x, y, rph);
          f.Some? && msg == Some(ObstaclePush(obstacles[f.value], x, y))
      {
        var dx := x - obstacles[i].x;
        var dy := y - obstacles[i].y;
        assert obstacles[..i + 1] == obstacles[..i] + [obstacles[i]];
        FirstCloseExtend(obstacles[..i], obstacles[i], x, y, rph);
        if !sent {
          if 0 < rph && dx * dx + dy * dy < rph * rph {
            var d := dx * dx + dy * dy;
            if d <= 1 {
              d := 1;
            }
            msg := Some(Repulsion(d, dx, dy));
            sent := true;
          }
        }
        i := i + 1;
      }
      assert obstacles[..obsCount] == obstacles[..i];
      if !sent {
        if x < rph {
          var distance := x;
          if distance < 1 { distance := 1; }
          msg := Some(Repulsion(distance * distance, distance, 0));
          sent := true;
        } else if x > ww - rph {
          var distance := ww - x;
          if distance < 1 { distance := 1; }
          msg := Some(Repulsion(distance * distance, -distance, 0));
          sent := true;
        }
        if y < rph && !sent {
          var distance := y;
          if distance < 1 { distance := 1; }
          msg := Some(Repulsion(distance * distance, 0, distance));
          sent := true;
        } else if y > wh - rph && !sent {
          var distance := wh - y;
          if distance < 1 { distance := 1; }
          msg := Some(Repulsion(distance * distance, 0, -distance));
          sent := true;
        }
      }
    }

    /**
     * The reads of a main-loop iteration once the channels were polled: the
     * messages of the ready channels in the order command, drone, obstacle,
     * target.  Returns the command key; `running` is left to the caller.
     */
    method Receive(input: CycleInput) returns (key: char)
      requires Valid()
      modifies this, obstacles, targets
      ensures Valid()
      ensures key == CycleKey(input)
      ensures State() == ReceiveStep(old(State()), input, genW, genH)
      ensures old(ItemsBelowEdges()) ==> ItemsBelowEdges()
      ensures old(ItemsInDisplay()) && NonNegative(input.obstacle) && NonNegative(input.target) ==> ItemsInDisplay()
    {
      key := CycleKey(input);
      if input.drone.Data? {
        DronePosition(input.drone.value);
      }
      if input.obstacle.Data? {
        InsertObstacle(input.obstacle.value);
      }
      if input.target.Data? {
        InsertTarget(input.target.value);
      }
    }

    /**
     * The second half: target removal, `a` (re-centre), `p` (pause, only
     * while still running), the drone clamp and the repulsion choice.
     */
    method Respond(key: char, pause: seq<Read<seq<char>>>) returns (overrides: seq<Point>, repulsion: Option<Repulsion>)
      requires Valid()
      modifies this, targets
      ensures Valid()
      ensures State() == RespondStep(old(State()), key, pause)
      ensures overrides == RespondOverrides(old(State()), key)
      ensures obstacles[..] == old(obstacles[..]) && obsCount == old(obsCount)
      ensures repulsion == ChooseRepulsion(obstacles[..obsCount], x, y, ww, wh, rph)
      ensures old(ItemsBelowEdges()) ==> ItemsBelowEdges()
      ensures old(ItemsInDisplay()) ==> ItemsInDisplay()
    {
      RemoveReachedTargets();
      overrides := Steer(key, pause);
      var clamps := ClampDrone();
      overrides := overrides + clamps;
      repulsion := ComputeRepulsion();
    }

    /** The keys `a` (re-centre, sent as an override) and `p` (pause, entered only while running). */
    method Steer(key: char, pause: seq<Read<seq<char>>>) returns (overrides: seq<Point>)
      requires Valid()
      modifies this
      ensures Valid()
      ensures State() == old(State()).(pos := Steered(old(State()), key),
                                       running := old(running) && !(key == 'p' && PauseOutcome(pause) == Quit))
      ensures overrides == if key == 'a' then [Centre(ww, wh)] else []
      ensures obsHead == old(obsHead) && obsCount == old(obsCount) && tarCount == old(tarCount)
    {
      overrides := [];
      if key == 'a' {
        x, y := ww / 2, wh / 2;
        overrides := [Point(x, y)];
      }
      if key == 'p' && running {
        if PauseOutcome(pause) == Quit {
          running := false;
        }
      }
    }

    /**
     * One iteration of the main loop.  A failed poll leaves the loop right
     * after the resize handling; like a termination request, the model
     * records that exit by clearing `running`.
     */
    method Cycle(input: CycleInput) returns (out: CycleOutput)
      requires Valid() && running
      modifies this, obstacles, targets
      ensures Valid()
      ensures State() == CycleStep(old(State()), input, genW, genH)
      ensures out.overrides == CycleOverrides(old(State()), input, genW, genH)
      ensures out.repulsion == if input.shouldExit || input.selectFailed then None
                               else ChooseRepulsion(obstacles[..obsCount], x, y, ww, wh, rph)
      ensures old(ItemsBelowEdges()) || (!input.shouldExit && input.resize.Some?) ==> ItemsBelowEdges()
      ensures old(ItemsInDisplay()) && NonNegative(input.obstacle) && NonNegative(input.target) ==> ItemsInDisplay()
    {
      if input.shouldExit {
        running := false;
        return CycleOutput([], None);
      }
      var received := ResizeIfAny(input);
      if input.selectFailed {
        running := false;
        return CycleOutput(received, None);
      }
      var key := Receive(input);
      EndChecks(input);
      var sent, repulsion := Respond(key, input.pause);
      out := CycleOutput(received + sent, repulsion);
    }

    /** KEY_RESIZE, handled before the channels are polled. */
    method ResizeIfAny(input: CycleInput) returns (received: seq<Point>)
      requires Valid()
      modifies this, obstacles, targets
      ensures Valid()
      ensures State() == Resized(old(State()), input)
      ensures received == if input.resize.Some? then [Centre(ww, wh)] else []
      ensures old(ItemsBelowEdges()) || input.resize.Some? ==> ItemsBelowEdges()
      ensures old(ItemsInDisplay()) ==> ItemsInDisplay()
    {
      received := [];
      if input.resize.Some? {
        var o := Resize(input.resize.value.0, input.resize.value.1);
        received := [o];
      }
    }

    /** A read of 0 bytes on any channel, or the key `q`, ends the main loop. */
    method EndChecks(input: CycleInput)
      requires Valid()
      modifies this
      ensures Valid()
      ensures State() == old(State()).(running := old(running) && !AnyClosed(input) && CycleKey(input) != 'q')
      ensures obsHead == old(obsHead) && obsCount == old(obsCount) && tarCount == old(tarCount)
    {
      if AnyClosed(input) {
        running := false;
      }
      if CycleKey(input) == 'q' {
        running := false;
      }
    }
  }

  /** The command key of a cycle: the first character of the command read, or NUL when nothing was read. */
  function CycleKey(input: CycleInput): char {
    if input.command.Data? then CommandKey(input.command.value) else '\0'
  }

  // ---------------------------------------------------------------------
  // Array steps and bounds of stored items

  predicate AllBelowEdges(ps: seq<Point>, ww: int, wh: int) {
    forall i :: 0 <= i < |ps| ==> BelowEdges(ps[i], ww, wh)
  }

  predicate AllInDisplay(ps: seq<Point>, ww: int, wh: int) {
    forall i :: 0 <= i < |ps| ==> InDisplay(ps[i], ww, wh)
  }

  /** Storing a rescaled generator point keeps a list within bounds. */
  lemma InsertBounds(ts: seq<Point>, g: Point, fromW: int, fromH: int, ww: int, wh: int)
    requires fromW > 0 && fromH > 0 && ww >= 3 && wh >= 3
    ensures AllBelowEdges(ts, ww, wh) ==> AllBelowEdges(Recent(ts + [RescalePoint(g, fromW, fromH, ww, wh)]), ww, wh)
    ensures AllInDisplay(ts, ww, wh) && 0 <= g.x && 0 <= g.y
      ==> AllInDisplay(Recent(ts + [RescalePoint(g, fromW, fromH, ww, wh)]), ww, wh)
  {
    RescaleInBounds(g, fromW, fromH, ww, wh);
    RecentBounds(ts, RescalePoint(g, fromW, fromH, ww, wh), ww, wh);
  }

  /** Appending with eviction keeps the target list within bounds. */
  lemma RecentBounds(ts: seq<Point>, p: Point, ww: int, wh: int)
    ensures AllBelowEdges(ts, ww, wh) && BelowEdges(p, ww, wh) ==> AllBelowEdges(Recent(ts + [p]), ww, wh)
    ensures AllInDisplay(ts, ww, wh) && InDisplay(p, ww, wh) ==> AllInDisplay(Recent(ts + [p]), ww, wh)
  {
    var s := ts + [p];
    AppendBounds(ts, p, ww, wh);
    if |s| > MaxItems {
      SuffixBounds(s, |s| - MaxItems, ww, wh);
    }
  }

  lemma AppendBounds(ts: seq<Point>, p: Point, ww: int, wh: int)
    ensures AllBelowEdges(ts, ww, wh) && BelowEdges(p, ww, wh) ==> AllBelowEdges(ts + [p], ww, wh)
    ensures AllInDisplay(ts, ww, wh) && InDisplay(p, ww, wh) ==> AllInDisplay(ts + [p], ww, wh)
  {
  }

  lemma SuffixBounds(s: seq<Point>, k: int, ww: int, wh: int)
    requires 0 <= k <= |s|
    ensures AllBelowEdges(s, ww, wh) ==> AllBelowEdges(s[k..], ww, wh)
    ensures AllInDisplay(s, ww, wh) ==> AllInDisplay(s[k..], ww, wh)
  {
  }

  /** Removal keeps the target list within bounds. */
  lemma WithoutBounds(ts: seq<Point>, d: Point, ww: int, wh: int)
    ensures AllBelowEdges(ts, ww, wh) ==> AllBelowEdges(Without(ts, d), ww, wh)
    ensures AllInDisplay(ts, ww, wh) ==> AllInDisplay(Without(ts, d), ww, wh)
  {
    var r := Without(ts, d);
    forall k | 0 <= k < |r|
      ensures r[k] in ts
    {
      WithoutMembers(ts, d, r[k]);
    }
  }

  /** After a resize every item is below the new edges, and items that were inside stay inside. */
  lemma RescaleAllBounds(ps: seq<Point>, fromW: int, fromH: int, toW: int, toH: int)
    requires fromW > 0 && fromH > 0 && toW >= 3 && toH >= 3
    ensures AllBelowEdges(RescaleAll(ps, fromW, fromH, toW, toH), toW, toH)
    ensures AllInDisplay(ps, fromW, fromH) ==> AllInDisplay(RescaleAll(ps, fromW, fromH, toW, toH), toW, toH)
  {
    forall k | 0 <= k < |ps|
      ensures BelowEdges(RescalePoint(ps[k], fromW, fromH, toW, toH), toW, toH)
      ensures InDisplay(ps[k], fromW, fromH) ==> InDisplay(RescalePoint(ps[k], fromW, fromH, toW, toH), toW, toH)
    {
      RescaleInBounds(ps[k], fromW, fromH, toW, toH);
    }
  }

  /** Writes slot `head` of the ring and advances head modulo 20. */
  method PushRing(a: array<Point>, head: int, count: int, p: Point) returns (head': int, count': int)
    requires a.Length == MaxItems && RingShape(head, count)
    modifies a
    ensures RingShape(head', count')
    ensures a[..] == old(a[..])[head := p]
    ensures head' == (head + 1) % MaxItems
    ensures count' == if count < MaxItems then count + 1 else MaxItems
    ensures Ring(a[..], head', count') == Recent(Ring(old(a[..]), head, count) + [p])
  {
    ghost var before := a[..];
    RingInsert(before, head, count, p);
    a[head] := p;
    assert a[..] == before[head := p];
    head' := (head + 1) % MaxItems;
    count' := if count < MaxItems then count + 1 else count;
  }

  /**
   * Appends p to the first n slots; when all are in use, index 0 is dropped
   * by shifting the rest one slot left and p goes to the last slot.
   */
  method PushTarget(a: array<Point>, n: int, p: Point) returns (n': int)
    requires a.Length == MaxItems && 0 <= n <= MaxItems
    modifies a
    ensures n' == if n < MaxItems then n + 1 else MaxItems
    ensures a[..n'] == Recent(old(a[..n]) + [p])
  {
    TargetInsertIsRecent(a[..n], p);
    if n < MaxItems {
      AppendTarget(a, n, p);
      n' := n + 1;
    } else {
      ShiftInTarget(a, p);
      n' := n;
    }
  }

  method AppendTarget(a: array<Point>, n: int, p: Point)
    requires 0 <= n < a.Length
    modifies a
    ensures a[..n + 1] == old(a[..n]) + [p]
  {
    ghost var s := a[..];
    a[n] := p;
    AppendShape(s, a[..], n, p);
  }

  method ShiftInTarget(a: array<Point>, p: Point)
    requires a.Length == MaxItems
    modifies a
    ensures a[..MaxItems] == old(a[..MaxItems])[1..] + [p]
  {
    ghost var s := a[..];
    forall k | 0 <= k < MaxItems - 1 {
      a[k] := a[k + 1];
    }
    a[MaxItems - 1] := p;
    FullShift(s, a[..], p);
  }

  /** The free-slot branch of PushTarget: writing slot n appends to the first n slots. */
  lemma AppendShape(s: seq<Point>, t: seq<Point>, n: int, p: Point)
    requires 0 <= n < |s| && t == s[n := p]
    ensures t[..n + 1] == s[..n] + [p]
  {
  }

  /** The full-list branch of PushTarget: every slot takes its successor's entry, the last one p. */
  lemma FullShift(s: seq<Point>, t: seq<Point>, p: Point)
    requires |s| == |t| == MaxItems
    requires forall k :: 0 <= k < MaxItems - 1 ==> t[k] == s[k + 1]
    requires t[MaxItems - 1] == p
    ensures t[..MaxItems] == s[..MaxItems][1..] + [p]
  {
    assert t[..MaxItems] == t;
    assert s[..MaxItems] == s;
  }

  /** memmove of a[from + 1 .. to) onto a[from .. to - 1). */
  method ShiftLeft(a: array<Point>, from: int, to: int)
    requires 0 <= from < to <= a.Length
    modifies a
    ensures a[..from] == old(a[..from])
    ensures a[from..to - 1] == old(a[from + 1..to])
    ensures a[to - 1..] == old(a[to - 1..])
  {
    ghost var s := a[..];
    forall k | from <= k < to - 1 {
      a[k] := a[k + 1];
    }
    ShiftedSlices(s, a[..], from, to);
  }

  lemma ShiftedSlices(s: seq<Point>, t: seq<Point>, from: int, to: int)
    requires 0 <= from < to <= |s| == |t|
    requires forall k :: 0 <= k < from ==> t[k] == s[k]
    requires forall k :: from <= k < to - 1 ==> t[k] == s[k + 1]
    requires forall k :: to - 1 <= k < |t| ==> t[k] == s[k]
    ensures t[..from] == s[..from]
    ensures t[from..to - 1] == s[from + 1..to]
    ensures t[to - 1..] == s[to - 1..]
  {
  }

  /**
   * The removal loop over the first n slots of a: every entry equal to d is
   * dropped by shifting the tail one slot left; returns the new count.
   */
  method RemoveMatching(a: array<Point>, n: int, d: Point) returns (m: int)
    requires 0 <= n <= a.Length
    modifies a
    ensures 0 <= m <= n
    ensures a[..m] == Without(old(a[..n]), d)
  {
    ghost var before := a[..n];
    ghost var j := 0;
    var i := 0;
    m := n;
    while i < m
      invariant i <= j && Compacted(a[..], i, m, before, j, d)
      decreases m - i
    {
      ghost var cur := a[..];
      if a[i] == d {
        if i < m - 1 {
          ShiftLeft(a, i, m);
        }
        DropStep(cur, a[..], i, m, before, j, d);
        m := m - 1;
        j := j + 1;
      } else {
        KeepStep(cur, i, m, before, j, d);
        i := i + 1;
        j := j + 1;
      }
    }
    assert before[..j] == before;
  }

  /**
   * The loop state of RemoveMatching: the first i slots hold the kept entries
   * of before[..j], and slots i .. m still hold before[j..] unexamined.
   */
  ghost predicate Compacted(cur: seq<Point>, i: int, m: int, before: seq<Point>, j: int, d: Point) {
    && 0 <= i <= m <= |cur| && 0 <= j <= |before| && m - i == |before| - j
    && cur[..i] == Without(before[..j], d)
    && cur[i..m] == before[j..]
  }

  /** An examined entry that differs from d stays where it is. */
  lemma KeepStep(cur: seq<Point>, i: int, m: int, before: seq<Point>, j: int, d: Point)
    requires Compacted(cur, i, m, before, j, d) && i < m && cur[i] != d
    ensures Compacted(cur, i + 1, m, before, j + 1, d)
  {
    WithoutSnoc(before, j, d);
    SliceFirst(cur, i, m);
    SliceFirst(before, j, |before|);
    TakeSucc(cur, i);
  }

  /** An entry equal to d is overwritten by shifting the unexamined slots left. */
  lemma DropStep(cur: seq<Point>, next: seq<Point>, i: int, m: int, before: seq<Point>, j: int, d: Point)
    requires Compacted(cur, i, m, before, j, d) && i < m && cur[i] == d
    requires |next| == |cur| && next[..i] == cur[..i] && next[i..m - 1] == cur[i + 1..m]
    ensures Compacted(next, i, m - 1, before, j + 1, d)
  {
    WithoutSnoc(before, j, d);
    SliceFirst(cur, i, m);
    SliceFirst(before, j, |before|);
  }

  /** Removal over one more entry. */
  lemma WithoutSnoc(s: seq<Point>, j: int, d: Point)
    requires 0 <= j < |s|
    ensures s[j] == d ==> Without(s[..j + 1], d) == Without(s[..j], d)
    ensures s[j] != d ==> Without(s[..j + 1], d) == Without(s[..j], d) + [s[j]]
  {
    TakeSucc(s, j);
    WithoutAppend(s[..j], [s[j]], d);
    assert [s[j]][1..] == [];
    assert Without([s[j]], d) == if s[j] == d then [] else [s[j]];
  }

  lemma TakeSucc(s: seq<Point>, j: int)
    requires 0 <= j < |s|
    ensures s[..j + 1] == s[..j] + [s[j]]
  {
  }

  lemma SliceFirst(s: seq<Point>, i: int, m: int)
    requires 0 <= i < m <= |s|
    ensures s[i..m][0] == s[i] && s[i..m][1..] == s[i + 1..m]
  {
  }

  /**
   * The resize loop over one array: the first n slots rescaled from a
   * fromW x fromH window to a toW x toH one and clamped, the rest untouched.
   */
  /** The obstacle half of a resize: the used slots rescaled in slot order, seen through the ring view. */
  method RescaleRing(a: array<Point>, head: int, count: int, fromW: int, fromH: int, toW: int, toH: int)
    requires a.Length == MaxItems && RingShape(head, count) && fromW > 0 && fromH > 0
    modifies a
    ensures Ring(a[..], head, count) == RescaleAll(Ring(old(a[..]), head, count), fromW, fromH, toW, toH)
  {
    ghost var before := a[..];
    RescaleSlots(a, count, fromW, fromH, toW, toH);
    RingRescale(before, a[..], head, count, fromW, fromH, toW, toH);
  }

  method RescaleSlots(a: array<Point>, n: int, fromW: int, fromH: int, toW: int, toH: int)
    requires 0 <= n <= a.Length && fromW > 0 && fromH > 0
    modifies a
    ensures a[..n] == RescaleAll(old(a[..n]), fromW, fromH, toW, toH)
    ensures a[n..] == old(a[n..])
  {
    ghost var before := a[..];
    var i := 0;
    while i < n
      invariant 0 <= i <= n
      invariant a[..i] == RescaleAll(before[..i], fromW, fromH, toW, toH)
      invariant a[i..] == before[i..]
    {
      a[i] := RescalePoint(a[i], fromW, fromH, toW, toH);
      assert before[..i + 1] == before[..i] + [before[i]];
      i := i + 1;
    }
    assert before[..n] == old(a[..n]);
  }

  predicate NonNegative(r: Read<Point>) {
    r.Data? ==> 0 <= r.value.x && 0 <= r.value.y
  }

  lemma {:induction false} FirstCloseExtend(obs: seq<Point>, o: Point, x: int, y: int, rph: int)
    ensures FirstClose(obs + [o], x, y, rph)
         == match FirstClose(obs, x, y, rph)
            case Some(i) => Some(i)
            case None => if Close(o, x, y, rph) then Some(|obs|) else None
  {
    if obs == [] {
      assert obs + [o] == [o];
    } else {
      assert (obs + [o])[0] == obs[0];
      assert (obs + [o])[1..] == obs[1..] + [o];
      FirstCloseExtend(obs[1..], o, x, y, rph);
    }
  }
}
