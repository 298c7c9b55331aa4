/**
 * The obstacle and target generators (process_Ob.c, process_Ta.c).  The two
 * programs are the same but for their interval: every 5 s (obstacles) or
 * 7 s (targets) each draws a point inside the window, minus a margin of
 * ten cells, and writes it as `"x,y"` with its terminating NUL to its pipe.
 */
module Generators {
  import opened CText
  import Params
  import Registry

  /** Milliseconds between two obstacles. */
  const ObstacleInterval := 5000

  /** Milliseconds between two targets. */
  const TargetInterval := 7000

  /** Cells of the window a generated point stays clear of. */
  const Margin := 10

  /**
   * `1 + rand() % (size - 10)` for a value `r` of rand(), which is never
   * negative: the remainder is taken by subtracting the divisor's magnitude
   * until less than it is left, which CoordinateRemainder shows is the
   * remainder C computes.  A window of exactly ten cells divides by zero,
   * which the caller has to rule out.
   */
  function Coordinate(r: nat, size: int): (x: int)
    requires size != Margin
    ensures size > Margin ==> 1 <= x <= size - Margin
    ensures size < Margin ==> 1 <= x <= Margin - size
    decreases r
  {
    var k := if size > Margin then size - Margin else Margin - size;
    if r < k then 1 + r else Coordinate(r - k, size)
  }

  /**
   * Coordinate is one plus the remainder of `r` by `size - 10`.  On a
   * non-negative dividend C's remainder agrees with Dafny's, also for a
   * negative divisor.
   */
  lemma CoordinateRemainder(r: nat, size: int)
    requires size != Margin
    ensures Coordinate(r, size) == 1 + r % (size - Margin)
  {
    var q := CoordinateQuotient(r, size);
    RemainderUnique(r, size - Margin, q, Coordinate(r, size) - 1);
  }

  /** How many times Coordinate took the divisor away: `r` is that many times `size - 10` plus what was left. */
  lemma {:induction false} CoordinateQuotient(r: nat, size: int) returns (q: int)
    requires size != Margin
    ensures r == q * (size - Margin) + (Coordinate(r, size) - 1)
    decreases r
  {
    var k := if size > Margin then size - Margin else Margin - size;
    if r < k {
      q := 0;
    } else {
      var p := CoordinateQuotient(r - k, size);
      q := if size > Margin then p + 1 else p - 1;
      assert q * (size - Margin) == p * (size - Margin) + k;
    }
  }

  /** Euclidean division leaves one remainder: `m` is `a % d` when `a == q * d + m` and `0 <= m < |d|`. */
  lemma RemainderUnique(a: int, d: int, q: int, m: int)
    requires d != 0 && 0 <= m < (if d > 0 then d else -d) && a == q * d + m
    ensures a % d == m
  {
    var k, r := a / d, a % d;
    assert a == k * d + r;
    var t := q - k;
    assert t * d == q * d - k * d;
    assert t * d == r - m;
    ProductMagnitude(t, d);
  }

  /** A non-zero multiple of `d` is at least as far from zero as `d`. */
  lemma ProductMagnitude(t: int, d: int)
    ensures t == 0 || (if t * d >= 0 then t * d else -(t * d)) >= (if d >= 0 then d else -d)
  {
    if t > 0 {
      assert t * d == (t - 1) * d + d;
      if d > 0 { assert (t - 1) * d >= 0; } else { assert (t - 1) * d <= 0; }
    } else if t < 0 {
      var u := -t - 1;
      assert t * d == -(u * d) - d;
      if d > 0 { assert u * d >= 0; } else { assert u * d <= 0; }
    }
  }

  /** Every cell of the range is drawn for some value of rand(). */
  lemma CoordinateReaches(size: int, x: int)
    requires size > Margin && 1 <= x <= size - Margin
    ensures Coordinate(x - 1, size) == x
  {
  }

  /** The bytes `write(fd, buffer, strlen(buffer) + 1)` puts on the pipe. */
  function Message(x: int, y: int): seq<char> {
    FormatPair(x, y) + ['\0']
  }

  /** A message is one C string: it ends with the only NUL it holds, so a reader splitting at NUL gets it whole. */
  lemma MessageTerminated(x: int, y: int)
    ensures var m := Message(x, y); |m| > 0 && m[|m| - 1] == '\0' && '\0' !in m[..|m| - 1]
  {
    NoNulInPair(x, y);
    var m := Message(x, y);
    assert m[..|m| - 1] == FormatPair(x, y);
  }

  lemma NoNulInPair(x: int, y: int)
    ensures '\0' !in FormatPair(x, y)
  {
    NoNulInInt(x);
    NoNulInInt(y);
  }

  lemma NoNulInInt(n: int)
    ensures '\0' !in FormatInt(n)
  {
    var s := FormatInt(n);
    if n < 0 {
      assert s == [s[0]] + s[1..];
      assert '\0' !in s[1..] by {
        assert forall i :: 0 <= i < |s[1..]| ==> IsDigit(s[1..][i]);
      }
    } else {
      assert forall i :: 0 <= i < |s| ==> IsDigit(s[i]);
    }
  }

  /** A message, read up to its NUL with `"%d,%d"`, gives back the point. */
  lemma MessageParses(x: int, y: int)
    ensures Scan(PairFormat, CString(Message(x, y))) == [IntVal(x), IntVal(y)]
  {
    NoNulInPair(x, y);
    CStringPair(FormatPair(x, y));
    ScanFormatPair(x, y);
  }

  lemma {:induction false} CStringPair(s: seq<char>)
    requires '\0' !in s
    ensures CString(s + ['\0']) == s
  {
    if s != [] {
      assert s[0] in s;
      assert (s + ['\0'])[1..] == s[1..] + ['\0'];
      CStringPair(s[1..]);
    }
  }

  /**
   * A value `Coordinate` can give for a window side of `size` cells:
   * 1..size-10, or 1..10-size when the side is smaller than the margin.
   */
  predicate InRange(a: int, size: int) {
    size != Margin && 1 <= a <= (if size > Margin then size - Margin else Margin - size)
  }

  /** A point `Coordinate` can give for a width x height window. */
  predicate Inside(a: int, b: int, width: int, height: int) {
    InRange(a, width) && InRange(b, height)
  }

  /** Every message carries a point the window's generator can draw. */
  ghost predicate AllInside(ms: seq<seq<char>>, width: int, height: int) {
    forall i :: 0 <= i < |ms| ==> exists a, b :: Inside(a, b, width, height) && ms[i] == Message(a, b)
  }

  /** One turn of the generator loop: a termination request, or the clock and two draws of rand(). */
  datatype Turn = Terminate | Tick(now: int, rx: nat, ry: nat)

  /**
   * Emission times, oldest first, each at least `interval` after the one
   * before and the first at least `interval` after `start`.
   */
  ghost predicate Spaced(start: int, stamps: seq<int>, interval: int) {
    (|stamps| > 0 ==> stamps[0] - start >= interval) &&
    forall i :: 0 < i < |stamps| ==> stamps[i] - stamps[i - 1] >= interval
  }

  /**
   * The clock ticks of a run, replayed from the last emission time `last`:
   * the last emission time afterwards and the messages sent, oldest first.
   */
  function Replay(last: int, ticks: seq<Turn>, interval: int, width: int, height: int): (r: (int, seq<seq<char>>))
    requires width != Margin && height != Margin
    requires forall j :: 0 <= j < |ticks| ==> ticks[j].Tick?
    ensures |r.1| <= |ticks|
    decreases |ticks|, 1
  {
    if ticks == [] then (last, []) else ReplayLast(last, ticks, interval, width, height)
  }

  /** The last tick of a replay, after the ones before it. */
  function ReplayLast(last: int, ticks: seq<Turn>, interval: int, width: int, height: int): (r: (int, seq<seq<char>>))
    requires width != Margin && height != Margin
    requires 0 < |ticks| && forall j :: 0 <= j < |ticks| ==> ticks[j].Tick?
    ensures |r.1| <= |ticks|
    decreases |ticks|, 0
  {
      var before := Replay(last, ticks[..|ticks| - 1], interval, width, height);
      var t := ticks[|ticks| - 1];
      if t.now - before.0 >= interval
      then (t.now, before.1 + [Message(Coordinate(t.rx, width), Coordinate(t.ry, height))])
      else before
  }

  /** Replaying one more tick is one more pass of the loop body. */
  lemma ReplayStep(last: int, turns: seq<Turn>, n: nat, interval: int, width: int, height: int)
    requires width != Margin && height != Margin
    requires n < |turns| && forall j :: 0 <= j <= n ==> turns[j].Tick?
    ensures var before := Replay(last, turns[..n], interval, width, height);
      var t := turns[n];
      Replay(last, turns[..n + 1], interval, width, height)
      == if t.now - before.0 >= interval
         then (t.now, before.1 + [Message(Coordinate(t.rx, width), Coordinate(t.ry, height))])
         else before
  {
    assert turns[..n + 1][..n] == turns[..n];
    assert Replay(last, turns[..n + 1], interval, width, height) == ReplayLast(last, turns[..n + 1], interval, width, height);
  }

  /** Every message of a replay carries a point the window's generator can draw. */
  lemma {:induction false} ReplayInside(last: int, ticks: seq<Turn>, interval: int, width: int, height: int)
    requires width != Margin && height != Margin
    requires forall j :: 0 <= j < |ticks| ==> ticks[j].Tick?
    ensures AllInside(Replay(last, ticks, interval, width, height).1, width, height)
  {
    if ticks != [] {
      var init := ticks[..|ticks| - 1];
      ReplayInside(last, init, interval, width, height);
      assert Replay(last, ticks, interval, width, height) == ReplayLast(last, ticks, interval, width, height);
      var before := Replay(last, init, interval, width, height);
      var t := ticks[|ticks| - 1];
      if t.now - before.0 >= interval {
        var a, b := Coordinate(t.rx, width), Coordinate(t.ry, height);
        assert Inside(a, b, width, height);
        var ms := before.1 + [Message(a, b)];
        forall i | 0 <= i < |ms|
          ensures exists a, b :: Inside(a, b, width, height) && ms[i] == Message(a, b)
        {
          if i < |before.1| {
            assert ms[i] == before.1[i];
          }
        }
      }
    }
  }

  /** The messages a replay appends to the pipe all carry points the window's generator can draw. */
  lemma SentInside(before: seq<seq<char>>, after: seq<seq<char>>, last: int, ticks: seq<Turn>, interval: int, width: int, height: int)
    requires width != Margin && height != Margin
    requires forall j :: 0 <= j < |ticks| ==> ticks[j].Tick?
    requires after == before + Replay(last, ticks, interval, width, height).1
    ensures AllInside(after[|before|..], width, height)
  {
    ReplayInside(last, ticks, interval, width, height);
    assert after[|before|..] == Replay(last, ticks, interval, width, height).1;
  }

  /** A generator's state: its window, its interval, the last point and when it was sent. */
  class Generator {
    const interval: int
    const width: int
    const height: int
    const start: int
    var x: int
    var y: int
    var last: int
    /** The messages written to the pipe, oldest first. */
    var sent: seq<seq<char>>
    /** When each message was written. */
    ghost var stamps: seq<int>

    ghost predicate Valid()
      reads this
    {
      |stamps| == |sent| &&
      Spaced(start, stamps, interval) &&
      last == (if stamps == [] then start else stamps[|stamps| - 1])
    }

    /** The state after start-up: `start` is the clock before the loop. */
    constructor (interval: int, width: int, height: int, start: int)
      ensures this.interval == interval && this.width == width && this.height == height
      ensures this.start == start && last == start && sent == []
      ensures Valid()
    {
      this.interval := interval;
      this.width := width;
      this.height := height;
      this.start := start;
      x, y := 0, 0;
      last := start;
      sent := [];
      stamps := [];
    }

    /**
     * One pass of the loop body: a point is drawn, stored and sent only when
     * `interval` milliseconds have gone by since the last one.
     */
    method Step(now: int, rx: nat, ry: nat) returns (emitted: bool)
      requires Valid() && width != Margin && height != Margin
      modifies this
      ensures Valid()
      ensures emitted <==> now - old(last) >= interval
      ensures emitted ==> x == Coordinate(rx, width) && y == Coordinate(ry, height) && last == now
      ensures emitted ==> sent == old(sent) + [Message(x, y)] && stamps == old(stamps) + [now]
      ensures !emitted ==> x == old(x) && y == old(y) && last == old(last) && sent == old(sent) && stamps == old(stamps)
    {
      emitted := now - last >= interval;
      if emitted {
        x := Coordinate(rx, width);
        y := Coordinate(ry, height);
        last := now;
        sent := sent + [Message(x, y)];
        stamps := stamps + [now];
      }
    }

    /**
     * The main loop: it stops at the first termination request or when the
     * turns run out, and returns how many turns it took.  What it sends is
     * the replay of the clock ticks it took; every message is a point the
     * window's generator can draw, and the messages are spaced by the
     * interval.
     */
    method Run(turns: seq<Turn>) returns (taken: nat)
      requires Valid() && width != Margin && height != Margin
      modifies this
      ensures Valid() && taken <= |turns|
      ensures forall j :: 0 <= j < taken ==> turns[j].Tick?
      ensures taken < |turns| ==> turns[taken] == Terminate
      ensures last == Replay(old(last), turns[..taken], interval, width, height).0
      ensures sent == old(sent) + Replay(old(last), turns[..taken], interval, width, height).1
      ensures AllInside(sent[|old(sent)|..], width, height)
    {
      taken := 0;
      ghost var sent0 := sent;
      while taken < |turns| && turns[taken] != Terminate
        invariant Valid() && taken <= |turns|
        invariant forall j :: 0 <= j < taken ==> turns[j].Tick?
        invariant last == Replay(old(last), turns[..taken], interval, width, height).0
        invariant sent == sent0 + Replay(old(last), turns[..taken], interval, width, height).1
      {
        var turn := turns[taken];
        var emitted := Step(turn.now, turn.rx, turn.ry);
        ReplayStep(old(last), turns, taken, interval, width, height);
        taken := taken + 1;
      }
      SentInside(sent0, sent, old(last), turns[..taken], interval, width, height);
    }
  }

  /** How a generator's start-up ends: an exit status, or its window. */
  datatype Launch = Exit(code: int) | Ready(width: int, height: int)

  /** Exit status when the pipe's descriptor is not given. */
  const UsageError := 64

  /**
   * The start-up: find the watchdog (status 1 when it cannot be found), read
   * the window size (status 66 when the file cannot be opened), then demand
   * the pipe's descriptor as an argument (status 64).
   */
  method Startup(registry: nat -> Option<seq<char>>, file: Option<seq<char>>, argc: nat) returns (r: Launch)
    ensures r.Exit? ==> r.code in {1, Params.OpenFail, UsageError}
    ensures r.Exit? && r.code == 1 <==> Registry.Missed(registry, Registry.Retries)
    ensures !Registry.Missed(registry, Registry.Retries) ==> (file.None? <==> r == Exit(Params.OpenFail))
    ensures r.Ready? ==> file.Some? && argc >= 2
    ensures !Registry.Missed(registry, Registry.Retries) && file.Some? && argc < 2 ==> r == Exit(UsageError)
  {
    var pid, tries := Registry.FindWatchdog(registry);
    if pid == -1 {
      return Exit(1);
    }
    Registry.MissedEvery(registry, Registry.Retries);
    var size := Params.GeneratorParameterFile(file, 0, 0);
    if size.Exit? {
      return Exit(size.code);
    }
    if argc < 2 {
      return Exit(UsageError);
    }
    r := Ready(size.width, size.height);
  }
}
