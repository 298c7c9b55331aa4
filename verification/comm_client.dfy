/**
 * The client side of the network bridge (Communication_Client.c).  It keeps
 * one 256-byte line buffer for the whole session: every read_line writes
 * into it, and every strcmp and sscanf looks at the C string it holds, even
 * after a read_line that failed and left part of an older line there.
 * Integer positions go both ways: the server's drone to the Coordinator's
 * pipe, the own drone's position, read from the Coordinator, to the server.
 */
module CommClient {
  import opened CText
  import opened Framing

  /** The size of the client's line buffer. */
  const LineSize := 256

  /** A pair of int coordinates (both VirtualCoord and LocalCoord). */
  datatype Coord = Coord(x: int, y: int)

  function LocalToVirtual(local: Coord, width: int, height: int): Coord {
    Coord(local.x, local.y)
  }

  function VirtualToLocal(virt: Coord, width: int, height: int): Coord {
    Coord(virt.x, virt.y)
  }

  /** The two coordinate conversions undo each other. */
  lemma ConversionsInverse(c: Coord, width: int, height: int)
    ensures VirtualToLocal(LocalToVirtual(c, width, height), width, height) == c
    ensures LocalToVirtual(VirtualToLocal(c, width, height), width, height) == c
  {
  }

  // ---------------------------------------------------------------------
  // sscanf and sprintf of positions

  /** `"size %d %d"` */
  const SizeFormat: seq<Directive> := Lits("size") + [Space, Int, Space, Int]

  /** `"%d %d"` */
  const SpacedFormat: seq<Directive> := [Int, Space, Int]

  /** What `sprintf(buf, "%d %d", x, y)` writes. */
  function FormatSpaced(x: int, y: int): (s: seq<char>)
    ensures '\0' !in s && '\n' !in s
  {
    var s := FormatInt(x) + ([' '] + FormatInt(y));
    assert forall c :: c in FormatInt(x) ==> c == '-' || IsDigit(c);
    assert forall c :: c in FormatInt(y) ==> c == '-' || IsDigit(c);
    s
  }

  /**
   * What sscanf stores into a pair: the first converted value into `x`, the
   * second into `y`; a variable it did not reach keeps what it held.
   */
  function Assign(vs: seq<Value>, c: Coord): (r: Coord)
    ensures |vs| < 1 ==> r.x == c.x
    ensures |vs| < 2 ==> r.y == c.y
  {
    Coord(if |vs| >= 1 && vs[0].IntVal? then vs[0].i else c.x,
          if |vs| >= 2 && vs[1].IntVal? then vs[1].i else c.y)
  }

  lemma {:induction false} SkipOneSpace(y: int)
    ensures SkipSpace([' '] + FormatInt(y)) == FormatInt(y)
  {
    var s := [' '] + FormatInt(y);
    assert s[1..] == FormatInt(y);
    assert !IsSpace(FormatInt(y)[0]);
  }

  /** How `"%d %d"` splits into its first conversion and the rest. */
  lemma SpacedFormatParts()
    ensures SpacedFormat == [Int] + [Space, Int]
    ensures [Space, Int] == [Space] + [Int]
    ensures [Int] == [Int] + []
  {
  }

  lemma {:induction false} ScanSpaceInt(y: int)
    ensures Scan([Space, Int], [' '] + FormatInt(y)) == [IntVal(y)]
  {
    SpacedFormatParts();
    assert ([Space] + [Int])[1..] == [Int];
    SkipOneSpace(y);
    ScanFormatInt(y, []);
    AppendEmpty(FormatInt(y));
    ScanIntStep([], FormatInt(y), y, []);
    ScanEnd(y);
  }

  /** The `"%d %d"` text the client sends is read back by `"%d %d"` as the same pair. */
  lemma {:induction false} ScanFormatSpaced(x: int, y: int)
    ensures Scan(SpacedFormat, FormatSpaced(x, y)) == [IntVal(x), IntVal(y)]
  {
    var tail := [' '] + FormatInt(y);
    assert tail[0] == ' ';
    ScanFormatInt(x, tail);
    SpacedFormatParts();
    ScanIntStep([Space, Int], FormatInt(x) + tail, x, tail);
    ScanSpaceInt(y);
    TwoValues(x, y);
  }

  /** A position sent as `"%d %d"` and read with `"%d %d"` is stored whole. */
  lemma PositionRoundTrip(c: Coord, stale: Coord)
    ensures Assign(Scan(SpacedFormat, FormatSpaced(c.x, c.y)), stale) == c
  {
    ScanFormatSpaced(c.x, c.y);
  }

  /** A line that does not start with `size` gives sscanf nothing to store. */
  lemma SizeNeedsWord(s: seq<char>, stale: Coord)
    requires s == [] || s[0] != 's'
    ensures Assign(Scan(SizeFormat, s), stale) == stale
  {
    assert SizeFormat[0] == Lit('s');
  }

  // ---------------------------------------------------------------------
  // The buffer across successive read_lines

  /** The read position in the server's bytes and the contents of the line buffer. */
  datatype Mark = Mark(pos: nat, buf: seq<char>)

  predicate Fits(input: seq<char>, m: Mark) {
    m.pos <= |input| && |m.buf| == LineSize
  }

  /**
   * read_line's loop after it stored `i` bytes of the stream `s` read from
   * `pos` into `buf`, which has room for `|buf| - 1` bytes and a NUL: where
   * the reading stops and the new buffer contents.
   */
  function Fill(s: seq<char>, pos: nat, buf: seq<char>, i: nat): (r: Mark)
    requires i < |buf| && pos + i <= |s|
    ensures pos + i <= r.pos <= |s| && |r.buf| == |buf|
    decreases |buf| - i
  {
    if i == |buf| - 1 then Mark(pos + i, buf[i := '\0'])
    else if pos + i == |s| then Mark(pos + i, buf)
    else if s[pos + i] == '\n' then Mark(pos + i + 1, buf[i := '\0'])
    else Fill(s, pos, buf[i := s[pos + i]], i + 1)
  }

  /** Fill is read_line: it consumes what Receive says and leaves the buffer AfterRead describes. */
  lemma {:induction false} FillReads(input: seq<char>, pos: nat, buf: seq<char>, i: nat)
    requires i < |buf| && pos + i <= |input|
    requires buf[..i] == input[pos..pos + i] && '\n' !in input[pos..pos + i]
    ensures Fill(input, pos, buf, i) == Mark(pos + Used(input[pos..], |buf| - 1), AfterRead(buf, input[pos..]))
    decreases |buf| - i
  {
    var s := input[pos..];
    if i == |buf| - 1 || pos + i == |input| || s[i] == '\n' {
      FillStops(input, pos, buf, i);
    } else {
      var next := buf[i := s[i]];
      assert s[..i] == input[pos..pos + i];
      assert input[pos..pos + i + 1] == s[..i + 1] == s[..i] + [s[i]];
      assert next[..i + 1] == s[..i + 1];
      FillReads(input, pos, next, i + 1);
      FillStores(input, pos, buf, i);
    }
  }

  /** Where read_line stops: the buffer is full, the stream ends, or a newline comes. */
  lemma FillStops(input: seq<char>, pos: nat, buf: seq<char>, i: nat)
    requires i < |buf| && pos + i <= |input|
    requires buf[..i] == input[pos..pos + i] && '\n' !in input[pos..pos + i]
    requires i == |buf| - 1 || pos + i == |input| || input[pos + i] == '\n'
    ensures Fill(input, pos, buf, i) == Mark(pos + Used(input[pos..], |buf| - 1), AfterRead(buf, input[pos..]))
  {
    var room := |buf| - 1;
    var s := input[pos..];
    assert s[..i] == input[pos..pos + i];
    if i == room {
      ReceiveFull(s, room);
      assert buf[i := '\0'] == s[..room] + ['\0'] + buf[room + 1..];
    } else if pos + i == |input| {
      assert s[..i] == s;
      assert Receive(s, room).None?;
      assert buf == s + buf[|s|..];
    } else {
      ReceiveNewline(s, room, i);
      assert buf[i := '\0'] == s[..i] + ['\0'] + buf[i + 1..];
    }
  }

  /** Storing a byte of the line does not change where the reading stops or what it leaves. */
  lemma FillStores(input: seq<char>, pos: nat, buf: seq<char>, i: nat)
    requires i < |buf| - 1 && pos + i < |input| && input[pos + i] != '\n'
    requires '\n' !in input[pos..pos + i]
    requires Fill(input, pos, buf[i := input[pos + i]], i + 1)
      == Mark(pos + Used(input[pos..], |buf| - 1), AfterRead(buf[i := input[pos + i]], input[pos..]))
    ensures Fill(input, pos, buf, i) == Mark(pos + Used(input[pos..], |buf| - 1), AfterRead(buf, input[pos..]))
  {
    var s := input[pos..];
    NewlineFreeStep(input, pos, i);
    SpanAtLeast(s, |buf| - 1, i + 1);
    AfterReadIgnores(buf, s, i, input[pos + i]);
  }

  /** One more byte that is not a newline keeps the stretch read so far newline-free. */
  lemma NewlineFreeStep(input: seq<char>, pos: nat, i: nat)
    requires pos + i < |input| && '\n' !in input[pos..pos + i] && input[pos + i] != '\n'
    ensures '\n' !in input[pos..][..i + 1] && input[pos..][i] == input[pos + i]
  {
    assert input[pos..][..i + 1] == input[pos..pos + i] + [input[pos + i]];
  }

  /** A stretch without newline that fits is all stored: the line is at least that long. */
  lemma SpanAtLeast(s: seq<char>, room: nat, j: nat)
    requires j <= room && j <= |s| && '\n' !in s[..j]
    ensures Span(s, room) >= j
  {
  }

  /** AfterRead does not depend on what the buffer held where the line goes. */
  lemma AfterReadIgnores(buf: seq<char>, s: seq<char>, i: nat, c: char)
    requires i < |buf| - 1 && i < |s| && Span(s, |buf| - 1) > i
    ensures AfterRead(buf[i := c], s) == AfterRead(buf, s)
  {
    var room := |buf| - 1;
    match Receive(s, room)
    case Some((line, _)) =>
      assert |line| == Span(s, room);
      assert buf[i := c][|line| + 1..] == buf[|line| + 1..];
    case None =>
      assert |s| == Span(s, room);
      assert buf[i := c][|s|..] == buf[|s|..];
  }

  /** One read_line into the buffer. */
  function Step(input: seq<char>, m: Mark): (r: Mark)
    requires Fits(input, m)
    ensures Fits(input, r) && m.pos <= r.pos
  {
    Fill(input, m.pos, m.buf, 0)
  }

  /**
   * Once the server's bytes are used up, a read_line changes nothing: the
   * client sees the same line again.
   */
  lemma StepAtEnd(input: seq<char>, m: Mark)
    requires Fits(input, m) && m.pos == |input|
    ensures Step(input, m) == m
  {
    assert input[m.pos..] == [];
    FillReads(input, m.pos, m.buf, 0);
    StaleRead(m.buf);
  }

  /** The position and buffer after `k` read_lines from `m`. */
  function After(input: seq<char>, m: Mark, k: nat): (r: Mark)
    requires Fits(input, m)
    ensures Fits(input, r) && m.pos <= r.pos
  {
    if k == 0 then m else Step(input, After(input, m, k - 1))
  }

  /** What strcmp and sscanf see after each of `k` read_lines from `m`. */
  function Heard(input: seq<char>, m: Mark, k: nat): (lines: seq<seq<char>>)
    requires Fits(input, m)
    ensures |lines| == k
  {
    if k == 0 then [] else Heard(input, m, k - 1) + [CString(After(input, m, k).buf)]
  }

  /**
   * `marks` are the reading position and buffer before a run of read_lines
   * and after each of them, and `heard` the C strings found after each:
   * each mark follows from the one before by one read_line.
   */
  ghost predicate Chain(input: seq<char>, marks: seq<Mark>, heard: seq<seq<char>>)
    requires |marks| == |heard| + 1
    decreases |heard|
  {
    Fits(input, marks[0]) &&
    (heard == [] ||
     var k := |heard| - 1;
     Chain(input, marks[..k + 1], heard[..k]) && Fits(input, marks[k])
     && marks[k + 1] == Step(input, marks[k]) && heard[k] == CString(marks[k + 1].buf))
  }

  /** A chain of reads is what the read_lines from its first mark give. */
  lemma {:induction false} ChainHeard(input: seq<char>, marks: seq<Mark>, heard: seq<seq<char>>)
    requires |marks| == |heard| + 1 && Chain(input, marks, heard)
    ensures marks[|heard|] == After(input, marks[0], |heard|)
    ensures heard == Heard(input, marks[0], |heard|)
  {
    if heard != [] {
      var k := |heard| - 1;
      ChainHeard(input, marks[..k + 1], heard[..k]);
      assert heard == heard[..k] + [heard[k]];
    }
  }

  /**
   * Chain behind `depth` layers that only count down: where a proof merely
   * carries the invariant from one call to the next, the verifier does not
   * unfold the chain itself.
   */
  ghost predicate Traced(input: seq<char>, marks: seq<Mark>, heard: seq<seq<char>>, depth: nat)
    requires |marks| == |heard| + 1
  {
    if depth == 0 then Chain(input, marks, heard) else Traced(input, marks, heard, depth - 1)
  }

  lemma TracedChain(input: seq<char>, marks: seq<Mark>, heard: seq<seq<char>>, depth: nat)
    requires |marks| == |heard| + 1
    ensures Traced(input, marks, heard, depth) == Chain(input, marks, heard)
  {
    if depth > 0 {
      TracedChain(input, marks, heard, depth - 1);
    }
  }

  lemma PlainFront(words: seq<seq<char>>)
    requires words != [] && Plain(words)
    ensures Plain(words[..|words| - 1])
    ensures var w := words[|words| - 1]; '\n' !in w && '\0' !in w && |w| < LineSize - 1
  {
    var front := words[..|words| - 1];
    forall i | 0 <= i < |front|
      ensures '\n' !in front[i] && '\0' !in front[i] && |front[i]| < LineSize - 1
    {
      assert front[i] == words[i];
    }
  }

  lemma DropFront(input: seq<char>, p: nat, a: seq<char>, b: seq<char>)
    requires p <= |input| && input[p..] == a + b
    ensures input[p + |a|..] == b
  {
    assert input[p + |a|..] == input[p..][|a|..];
  }

  /** A non-empty sequence is its front followed by its last element. */
  lemma LastSplit<T>(s: seq<T>)
    requires s != []
    ensures s == s[..|s| - 1] + [s[|s| - 1]]
  {
  }

  /** Appending two pieces in turn appends their concatenation. */
  lemma Extend<T>(a: seq<T>, b: seq<T>, c: seq<T>)
    ensures a + b + c == a + (b + c)
  {
  }

  /** The bytes write_line puts on the wire for each message in turn. */
  function Wire(words: seq<seq<char>>): seq<char> {
    if words == [] then [] else Wire(words[..|words| - 1]) + Frame(words[|words| - 1])
  }

  predicate Plain(words: seq<seq<char>>) {
    forall i :: 0 <= i < |words| ==> '\n' !in words[i] && '\0' !in words[i] && |words[i]| < LineSize - 1
  }

  /** One read_line on a framed short message hears exactly that message. */
  lemma HeardOne(input: seq<char>, a: Mark, w: seq<char>, rest: seq<char>)
    requires Fits(input, a) && '\n' !in w && '\0' !in w && |w| < LineSize - 1
    requires input[a.pos..] == Frame(w) + rest
    ensures Step(input, a).pos == a.pos + |Frame(w)|
    ensures CString(Step(input, a).buf) == w
  {
    var s := input[a.pos..];
    FramedRead(a.buf, s, w, rest);
    FillReads(input, a.pos, a.buf, 0);
  }

  /** A read_line of a framed message consumes the frame and leaves the message as the buffer's C string. */
  lemma FramedRead(buf: seq<char>, s: seq<char>, w: seq<char>, rest: seq<char>)
    requires |buf| == LineSize && '\n' !in w && '\0' !in w && |w| < LineSize - 1
    requires s == Frame(w) + rest
    ensures Used(s, LineSize - 1) == |Frame(w)| == |w| + 1
    ensures CString(AfterRead(buf, s)) == w
  {
    CStringOfPlain(w);
    ReceiveFramed(s, w, rest);
    HeardLine(buf, s);
  }

  lemma ReceiveFramed(s: seq<char>, w: seq<char>, rest: seq<char>)
    requires '\n' !in w && '\0' !in w && |w| < LineSize - 1
    requires s == Frame(w) + rest
    ensures Receive(s, LineSize - 1).Some?
    ensures Receive(s, LineSize - 1).value.0 == w && Receive(s, LineSize - 1).value.1 == |w| + 1
  {
    FrameRoundTrip(w, rest, LineSize - 1);
  }

  /** One more framed message after those already heard is heard next. */
  lemma HeardNext(input: seq<char>, m: Mark, front: seq<seq<char>>, w: seq<char>, rest: seq<char>)
    requires Fits(input, m) && '\n' !in w && '\0' !in w && |w| < LineSize - 1
    requires input[m.pos..] == Wire(front) + (Frame(w) + rest)
    requires After(input, m, |front|).pos == m.pos + |Wire(front)|
    requires Heard(input, m, |front|) == front
    ensures After(input, m, |front| + 1).pos == m.pos + |Wire(front)| + |Frame(w)|
    ensures Heard(input, m, |front| + 1) == front + [w]
  {
    var a := After(input, m, |front|);
    DropFront(input, m.pos, Wire(front), Frame(w) + rest);
    HeardOne(input, a, w, rest);
  }

  /**
   * Short messages without newline or NUL, written one after the other,
   * are heard one per read_line, whatever the buffer held before.
   */
  lemma {:induction false} HeardWire(input: seq<char>, m: Mark, words: seq<seq<char>>, rest: seq<char>)
    requires Fits(input, m) && Plain(words)
    requires input[m.pos..] == Wire(words) + rest
    ensures After(input, m, |words|).pos == m.pos + |Wire(words)|
    ensures Heard(input, m, |words|) == words
  {
    if words != [] {
      var k := |words| - 1;
      var front := words[..k];
      var w := words[k];
      PlainFront(words);
      Extend(Wire(front), Frame(w), rest);
      HeardWire(input, m, front, Frame(w) + rest);
      HeardNext(input, m, front, w, rest);
      LastSplit(words);
    }
  }

  // ---------------------------------------------------------------------
  // The client process

  /** What the read of the Coordinator's pipe gives: a position, nothing, or an error. */
  datatype PipeRead = Got(c: Coord) | Empty | Failed

  /** my_drone after the read: a position read replaces it, an empty read leaves it as it was. */
  function Fed(mine: Coord, pipe: PipeRead): Coord {
    if pipe.Got? then pipe.c else mine
  }

  /**
   * A turn that heard `drone`, the server's drone, `obst`, `pok` and one
   * more line, with the pipe read in between: the turns the loop goes on
   * after, unless that last line is `q`.
   */
  predicate Matched(lines: seq<seq<char>>, pipe: PipeRead) {
    |lines| == 5 && lines[0] == "drone" && lines[2] == "obst" && lines[3] == "pok" && !pipe.Failed?
  }

  /** Whether the loop goes on after the turns `rounds`: every one of them matched and none heard `q`. */
  predicate GoesOn(rounds: seq<seq<seq<char>>>, pipes: seq<PipeRead>)
    requires |rounds| <= |pipes|
    decreases |rounds|, 1
  {
    rounds == [] || WentOnAfter(rounds, pipes)
  }

  /** The loop went on after the turns before the last one, and the last one matched without `q`. */
  predicate WentOnAfter(rounds: seq<seq<seq<char>>>, pipes: seq<PipeRead>)
    requires 0 < |rounds| <= |pipes|
    decreases |rounds|, 0
  {
    GoesOn(rounds[..|rounds| - 1], pipes) && Matched(rounds[|rounds| - 1], pipes[|rounds| - 1]) && rounds[|rounds| - 1][4] != "q"
  }

  /** The loop goes on after `rounds` exactly when every one of them matched and none heard `q`. */
  lemma {:induction false} GoesOnEvery(rounds: seq<seq<seq<char>>>, pipes: seq<PipeRead>)
    requires |rounds| <= |pipes|
    ensures GoesOn(rounds, pipes) <==> forall j :: 0 <= j < |rounds| ==> Matched(rounds[j], pipes[j]) && rounds[j][4] != "q"
  {
    if rounds != [] {
      var front := rounds[..|rounds| - 1];
      assert forall j :: 0 <= j < |front| ==> front[j] == rounds[j];
      GoesOnEvery(front, pipes);
      assert GoesOn(rounds, pipes) == WentOnAfter(rounds, pipes);
    }
  }

  /** Every turn but the last one of a loop that went on until it matched without `q`. */
  lemma WentOn(rounds: seq<seq<seq<char>>>, pipes: seq<PipeRead>)
    requires 0 < |rounds| <= |pipes| && GoesOn(rounds[..|rounds| - 1], pipes)
    ensures forall j :: 0 <= j < |rounds| - 1 ==> Matched(rounds[j], pipes[j]) && rounds[j][4] != "q"
  {
    GoesOnEvery(rounds[..|rounds| - 1], pipes);
  }

  /** A loop that stopped before the pipe reads ran out stopped at a turn that did not match or heard `q`. */
  lemma StoppedEarly(rounds: seq<seq<seq<char>>>, pipes: seq<PipeRead>)
    requires |rounds| < |pipes| && !GoesOn(rounds, pipes)
    requires |rounds| > 0 ==> GoesOn(rounds[..|rounds| - 1], pipes)
    ensures |rounds| > 0 && (!Matched(rounds[|rounds| - 1], pipes[|rounds| - 1]) || rounds[|rounds| - 1][4] == "q")
  {
    if |rounds| > 0 {
      assert GoesOn(rounds, pipes) == WentOnAfter(rounds, pipes);
    }
  }

  /**
   * What the turns leave behind: the messages sent to the server, the
   * positions written to the Coordinator's pipe and the two position
   * variables.
   */
  datatype Progress = Progress(out: seq<seq<char>>, toBoard: seq<Coord>, server: Coord, mine: Coord)

  /**
   * A turn's effect, given the lines it heard and the pipe read: nothing
   * after a line other than `drone`; then the server's drone is stored,
   * acknowledged with `dok` and passed to the Coordinator; after `obst` and
   * a pipe read the own drone is stored and sent, and a `q` after `pok` is
   * answered with `qok`.
   */
  function TurnStep(p: Progress, size: Coord, lines: seq<seq<char>>, pipe: PipeRead): (r: Progress)
    ensures |lines| < 3 ==> r == p
    ensures p.out <= r.out && |r.out| <= |p.out| + 3
    ensures |r.toBoard| == |p.toBoard| + (if |lines| < 3 then 0 else 1) && p.toBoard <= r.toBoard
  {
    if |lines| < 3 then p
    else
      var server := Assign(Scan(SpacedFormat, lines[1]), p.server);
      var toBoard := p.toBoard + [VirtualToLocal(server, size.x, size.y)];
      if |lines| == 3 then Progress(p.out + ["dok"], toBoard, server, p.mine)
      else
        var mine := Fed(p.mine, pipe);
        var v := LocalToVirtual(mine, size.x, size.y);
        Progress(p.out + ["dok", FormatSpaced(v.x, v.y)] + (if |lines| == 5 && lines[4] == "q" then ["qok"] else []),
                 toBoard, server, mine)
  }

  /** What Turn states about the lines it heard and the state it leaves is TurnStep. */
  lemma StepOf(p: Progress, q: Progress, size: Coord, lines: seq<seq<char>>, pipe: PipeRead, quit: bool)
    requires 1 <= |lines| <= 5 && |lines| != 2 && (quit <==> |lines| == 5 && lines[4] == "q")
    requires |lines| == 1 ==> q.out == p.out && q.toBoard == p.toBoard && q.server == p.server
    requires |lines| >= 3 ==> q.server == Assign(Scan(SpacedFormat, lines[1]), p.server)
    requires |lines| >= 3 ==> q.toBoard == p.toBoard + [VirtualToLocal(q.server, size.x, size.y)]
    requires |lines| == 3 ==> q.out == p.out + ["dok"]
    requires q.mine == if |lines| >= 4 then Fed(p.mine, pipe) else p.mine
    requires |lines| >= 4 ==> var v := LocalToVirtual(q.mine, size.x, size.y);
      q.out == p.out + ["dok"] + [FormatSpaced(v.x, v.y)] + (if quit then ["qok"] else [])
    ensures q == TurnStep(p, size, lines, pipe)
  {
  }

  /** The turns in order from `p`, the i-th with the i-th pipe read. */
  function Turns(p: Progress, size: Coord, rounds: seq<seq<seq<char>>>, pipes: seq<PipeRead>): Progress
    requires |rounds| <= |pipes|
    decreases |rounds|, 1
  {
    if rounds == [] then p else LastTurn(p, size, rounds, pipes)
  }

  /** The last of the turns `rounds`, after the ones before it. */
  function LastTurn(p: Progress, size: Coord, rounds: seq<seq<seq<char>>>, pipes: seq<PipeRead>): Progress
    requires 0 < |rounds| <= |pipes|
    decreases |rounds|, 0
  {
    TurnStep(Turns(p, size, rounds[..|rounds| - 1], pipes), size, rounds[|rounds| - 1], pipes[|rounds| - 1])
  }

  /** The lines heard over several turns, in order. */
  function Joined(rounds: seq<seq<seq<char>>>): seq<seq<char>> {
    if rounds == [] then [] else Joined(rounds[..|rounds| - 1]) + rounds[|rounds| - 1]
  }

  /**
   * Over the turns played, the messages sent stay sent, at most three go
   * out per turn, and every turn that heard the server's drone passes
   * exactly one position to the Coordinator.
   */
  lemma {:induction false} TurnsSend(p: Progress, size: Coord, rounds: seq<seq<seq<char>>>, pipes: seq<PipeRead>)
    requires |rounds| <= |pipes|
    ensures var t := Turns(p, size, rounds, pipes);
      && p.out <= t.out && |t.out| <= |p.out| + 3 * |rounds|
      && p.toBoard <= t.toBoard && |t.toBoard| <= |p.toBoard| + |rounds|
      && ((forall j :: 0 <= j < |rounds| ==> |rounds[j]| >= 3) ==> |t.toBoard| == |p.toBoard| + |rounds|)
  {
    if rounds != [] {
      var front := rounds[..|rounds| - 1];
      assert Turns(p, size, rounds, pipes) == TurnStep(Turns(p, size, front, pipes), size, rounds[|rounds| - 1], pipes[|rounds| - 1]);
      assert forall j :: 0 <= j < |front| ==> front[j] == rounds[j];
      TurnsSend(p, size, front, pipes);
    }
  }

  /** After a turn that answered `q`, `qok` is the last message sent and `q` the last line heard. */
  lemma QuitLast(p: Progress, size: Coord, rounds: seq<seq<seq<char>>>, pipes: seq<PipeRead>)
    requires 0 < |rounds| <= |pipes|
    requires Matched(rounds[|rounds| - 1], pipes[|rounds| - 1]) && rounds[|rounds| - 1][4] == "q"
    ensures var out := Turns(p, size, rounds, pipes).out; |out| > 0 && out[|out| - 1] == "qok"
    ensures var lines := Joined(rounds); |lines| > 0 && lines[|lines| - 1] == "q"
  {
    assert Turns(p, size, rounds, pipes) == LastTurn(p, size, rounds, pipes);
  }

  /**
   * The state of communication_client: the server's bytes and the read
   * position in them, the line buffer, the messages sent to the server
   * with write_line, the positions written to the Coordinator's pipe, the
   * window size and the two position variables of the loop, which keep
   * their value from one turn to the next when nothing is stored in them.
   */
  class Client {
    const input: seq<char>
    const buffer: array<char>
    var pos: nat
    var out: seq<seq<char>>
    var toBoard: seq<Coord>
    var size: Coord
    var server: Coord
    var mine: Coord
    /** The reading position and buffer contents at the start and after each read_line. */
    ghost var marks: seq<Mark>
    /** The C string strcmp and sscanf saw in the buffer after each read_line. */
    ghost var heard: seq<seq<char>>

    ghost predicate Valid()
      reads this`pos, this`marks, this`heard, buffer
    {
      buffer.Length == LineSize && pos <= |input| && |marks| == |heard| + 1 && marks[0].pos == 0
      && Traced(input, marks, heard, 2) && marks[|heard|] == Mark(pos, buffer[..])
    }

    /**
     * A connected client: `buffer`, `size` and `stale` hold whatever the
     * uninitialised buffer, `w`, `h` and position variables hold.
     */
    constructor (input: seq<char>, buffer: array<char>, size: Coord, stale: Coord)
      requires buffer.Length == LineSize
      ensures Valid() && this.input == input && this.buffer == buffer
      ensures pos == 0 && heard == [] && out == [] && toBoard == []
      ensures this.size == size && server == stale && mine == stale
    {
      this.input := input;
      this.buffer := buffer;
      pos := 0;
      out := [];
      toBoard := [];
      this.size := size;
      server := stale;
      mine := stale;
      marks := [Mark(0, buffer[..])];
      heard := [];
      new;
      TracedChain(input, marks, heard, 2);
    }

    /** read_line(sockfd, buffer, sizeof(buffer)), then the C string in the buffer. */
    method Read() returns (line: seq<char>)
      requires Valid()
      modifies this`pos, buffer, this`marks, this`heard
      ensures Valid() && heard == old(heard) + [line]
    {
      ghost var m := Mark(pos, buffer[..]);
      TracedChain(input, marks, heard, 2);
      pos := ReadInto(input, pos, buffer);
      FillReads(input, m.pos, m.buf, 0);
      line := CString(buffer[..]);
      ghost var k := |heard|;
      marks := marks + [Mark(pos, buffer[..])];
      heard := heard + [line];
      assert marks[..k + 1] == old(marks) && heard[..k] == old(heard);
      TracedChain(input, marks, heard, 2);
    }

    /**
     * The handshake: expect `ok` (or return), reply `ook`, read the window
     * size with `"size %d %d"` and reply `sok`.
     */
    method Greet() returns (ok: bool, lines: seq<seq<char>>)
      requires Valid()
      modifies this`pos, buffer, this`marks, this`heard, this`out, this`size
      ensures Valid() && heard == old(heard) + lines
      ensures 1 <= |lines| && (ok <==> lines[0] == "ok")
      ensures !ok ==> |lines| == 1 && out == old(out) && size == old(size)
      ensures ok ==> |lines| == 2 && out == old(out) + ["ook", "sok"]
      ensures ok ==> size == Assign(Scan(SizeFormat, lines[1]), old(size))
    {
      ghost var h0 := heard;
      var line := Read();
      lines := [line];
      ok := line == "ok";
      if ok {
        out := out + ["ook"];
        line := Read();
        Extend(h0, lines, [line]);
        lines := lines + [line];
        size := Assign(Scan(SizeFormat, line), size);
        out := out + ["sok"];
      }
    }

    /**
     * One turn of the main loop: expect `drone`, read the server's drone
     * with `"%d %d"`, reply `dok` and pass it to the Coordinator; expect
     * `obst`, read the own drone from the Coordinator (an error ends the
     * loop) and send it as `"%d %d"`; expect `pok`; then a line `q` gets
     * `qok` and ends the session.  `go` is false when the loop breaks.
     */
    method Turn(pipe: PipeRead) returns (go: bool, quit: bool, lines: seq<seq<char>>)
      requires Valid()
      modifies this`pos, buffer, this`marks, this`heard, this`out, this`toBoard, this`server, this`mine
      ensures Valid() && heard == old(heard) + lines && old(out) <= out
      ensures 1 <= |lines| <= 5 && |lines| != 2
      ensures |lines| == 1 <==> lines[0] != "drone"
      ensures |lines| == 3 ==> lines[2] != "obst" || pipe.Failed?
      ensures |lines| == 4 ==> lines[3] != "pok"
      ensures go <==> |lines| == 5
      ensures go <==> Matched(lines, pipe)
      ensures quit <==> go && lines[4] == "q"
      ensures |lines| == 1 ==> out == old(out) && toBoard == old(toBoard) && server == old(server)
      ensures |lines| >= 3 ==> server == Assign(Scan(SpacedFormat, lines[1]), old(server))
      ensures |lines| >= 3 ==> toBoard == old(toBoard) + [VirtualToLocal(server, size.x, size.y)]
      ensures |lines| == 3 ==> out == old(out) + ["dok"]
      ensures mine == if |lines| >= 4 then Fed(old(mine), pipe) else old(mine)
      ensures |lines| >= 4 ==> lines[2] == "obst" && !pipe.Failed?
      ensures |lines| >= 4 ==> var v := LocalToVirtual(mine, size.x, size.y);
        out == old(out) + ["dok"] + [FormatSpaced(v.x, v.y)] + (if quit then ["qok"] else [])
    {
      go, quit := false, false;
      ghost var h0 := heard;
      var line := Read();
      lines := [line];
      if line == "drone" {
        var more;
        go, quit, more := Drone(pipe);
        Extend(h0, lines, more);
        lines := lines + more;
      }
    }

    /**
     * A turn after `drone`: the server's drone, `dok` and the pipe to the
     * Coordinator, then `obst` and what follows it.
     */
    method Drone(pipe: PipeRead) returns (go: bool, quit: bool, lines: seq<seq<char>>)
      requires Valid()
      modifies this`pos, buffer, this`marks, this`heard, this`out, this`toBoard, this`server, this`mine
      ensures Valid() && heard == old(heard) + lines
      ensures 2 <= |lines| <= 4
      ensures |lines| == 2 ==> lines[1] != "obst" || pipe.Failed?
      ensures |lines| == 3 ==> lines[2] != "pok"
      ensures go <==> |lines| == 4
      ensures go ==> lines[2] == "pok"
      ensures quit <==> go && lines[3] == "q"
      ensures server == Assign(Scan(SpacedFormat, lines[0]), old(server))
      ensures toBoard == old(toBoard) + [VirtualToLocal(server, size.x, size.y)]
      ensures |lines| == 2 ==> out == old(out) + ["dok"] && mine == old(mine)
      ensures |lines| >= 3 ==> lines[1] == "obst" && !pipe.Failed? && mine == Fed(old(mine), pipe)
      ensures |lines| >= 3 ==> var v := LocalToVirtual(mine, size.x, size.y);
        out == old(out) + ["dok"] + [FormatSpaced(v.x, v.y)] + (if quit then ["qok"] else [])
    {
      go, quit := false, false;
      ghost var h0 := heard;
      var first, second := Opening();
      lines := [first, second];
      if second == "obst" && !pipe.Failed? {
        var more;
        go, quit, more := Report(pipe);
        Extend(h0, lines, more);
        lines := lines + more;
      }
    }

    /** The two lines after `drone`: the server's drone, taken as `Position` says, then the next line. */
    method Opening() returns (first: seq<char>, second: seq<char>)
      requires Valid()
      modifies this`pos, buffer, this`marks, this`heard, this`out, this`toBoard, this`server
      ensures Valid() && heard == old(heard) + [first, second]
      ensures server == Assign(Scan(SpacedFormat, first), old(server))
      ensures out == old(out) + ["dok"]
      ensures toBoard == old(toBoard) + [VirtualToLocal(server, size.x, size.y)]
    {
      ghost var h0 := heard;
      first := Read();
      Position(first);
      second := Read();
      Extend(h0, [first], [second]);
    }

    /** The server's drone from a `"%d %d"` line: stored, acknowledged with `dok` and passed to the Coordinator. */
    method Position(line: seq<char>)
      modifies this`server, this`out, this`toBoard
      ensures server == Assign(Scan(SpacedFormat, line), old(server))
      ensures out == old(out) + ["dok"]
      ensures toBoard == old(toBoard) + [VirtualToLocal(server, size.x, size.y)]
    {
      server := Assign(Scan(SpacedFormat, line), server);
      out := out + ["dok"];
      toBoard := toBoard + [VirtualToLocal(server, size.x, size.y)];
    }

    /**
     * A turn after `obst`: the own drone from the Coordinator to the server,
     * `pok`, then the line that may be `q`.
     */
    method Report(pipe: PipeRead) returns (go: bool, quit: bool, lines: seq<seq<char>>)
      requires Valid() && !pipe.Failed?
      modifies this`pos, buffer, this`marks, this`heard, this`out, this`mine
      ensures Valid() && heard == old(heard) + lines
      ensures 1 <= |lines| <= 2
      ensures go <==> |lines| == 2
      ensures !go ==> lines[0] != "pok"
      ensures go ==> lines[0] == "pok"
      ensures quit <==> go && lines[1] == "q"
      ensures mine == Fed(old(mine), pipe)
      ensures var v := LocalToVirtual(mine, size.x, size.y);
        out == old(out) + [FormatSpaced(v.x, v.y)] + (if quit then ["qok"] else [])
    {
      go, quit := false, false;
      mine := Fed(mine, pipe);
      var v := LocalToVirtual(mine, size.x, size.y);
      out := out + [FormatSpaced(v.x, v.y)];
      ghost var h0 := heard;
      var line := Read();
      lines := [line];
      if line == "pok" {
        line := Read();
        Extend(h0, lines, [line]);
        lines := lines + [line];
        go := true;
        if line == "q" {
          out := out + ["qok"];
          quit := true;
        }
      }
    }

    /**
     * communication_client from the connection on.  The own drone's
     * positions the Coordinator's pipe gives are `pipes`, one per turn, and
     * `rounds` are the lines each turn heard.  The loop goes on after a turn
     * that heard everything it expected and no `q`, and ends after a turn
     * that did not, or when the pipe reads run out.
     */
    method Run(pipes: seq<PipeRead>) returns (started: bool, turns: nat, quit: bool, lines: seq<seq<char>>, ghost rounds: seq<seq<seq<char>>>)
      requires Valid()
      modifies this`pos, buffer, this`marks, this`heard, this`out, this`toBoard, this`size, this`server, this`mine
      ensures Valid() && heard == old(heard) + lines
      ensures 1 <= |lines| && (started <==> lines[0] == "ok")
      ensures !started ==> out == old(out) && turns == 0 && !quit && |lines| == 1
      ensures started ==> 2 <= |lines| && turns == |rounds| <= |pipes| && lines[2..] == Joined(rounds)
      ensures started ==> forall j :: 0 <= j < turns - 1 ==> Matched(rounds[j], pipes[j]) && rounds[j][4] != "q"
      ensures started ==> (quit <==> turns > 0 && Matched(rounds[turns - 1], pipes[turns - 1]) && rounds[turns - 1][4] == "q")
      ensures started && turns < |pipes| ==> turns > 0 && (!Matched(rounds[turns - 1], pipes[turns - 1]) || quit)
      ensures started ==> size == Assign(Scan(SizeFormat, lines[1]), old(size))
      ensures started ==>
        Progress(out, toBoard, server, mine) == Turns(Progress(old(out) + ["ook", "sok"], old(toBoard), old(server), old(mine)), size, rounds, pipes)
      ensures quit ==> 0 < |out| && out[|out| - 1] == "qok" && lines[|lines| - 1] == "q"
    {
      started, lines := Greet();
      turns, quit, rounds := 0, false, [];
      if started {
        var more;
        ghost var h0 := old(heard);
        ghost var greeting := lines;
        ghost var p0 := Progress(out, toBoard, server, mine);
        turns, quit, more, rounds := Play(pipes);
        Extend(h0, greeting, more);
        lines := lines + more;
        assert lines[2..] == more;
        if turns > 0 {
          WentOn(rounds, pipes);
        }
        if turns < |pipes| {
          StoppedEarly(rounds, pipes);
        }
        if quit {
          QuitLast(p0, size, rounds, pipes);
        }
      }
    }

    /**
     * One turn of the main loop with the next pipe read: the lines it hears
     * extend `rounds`, and what it leaves behind is TurnStep's.
     */
    method Next(pipes: seq<PipeRead>, turns: nat, ghost start: Progress, ghost rounds: seq<seq<seq<char>>>)
      returns (go: bool, quit: bool, more: seq<seq<char>>, ghost after: seq<seq<seq<char>>>)
      requires Valid() && turns == |rounds| < |pipes| && GoesOn(rounds, pipes)
      requires Progress(out, toBoard, server, mine) == Turns(start, size, rounds, pipes)
      modifies this`pos, buffer, this`marks, this`heard, this`out, this`toBoard, this`server, this`mine
      ensures Valid() && heard == old(heard) + more && after == rounds + [more]
      ensures GoesOn(after[..|after| - 1], pipes)
      ensures go && !quit <==> GoesOn(after, pipes)
      ensures (go <==> Matched(more, pipes[|rounds|])) && (quit <==> go && more[4] == "q")
      ensures Progress(out, toBoard, server, mine) == Turns(start, size, after, pipes)
    {
      ghost var before := Progress(out, toBoard, server, mine);
      go, quit, more := Turn(pipes[turns]);
      StepOf(before, Progress(out, toBoard, server, mine), size, more, pipes[turns], quit);
      after := rounds + [more];
      assert after[..|rounds|] == rounds;
      assert Turns(start, size, after, pipes) == LastTurn(start, size, after, pipes);
      assert GoesOn(after, pipes) == WentOnAfter(after, pipes);
    }

    /**
     * The main loop: turns, one per pipe read in `pipes`, until a turn that
     * does not go on or answers `q`.  `rounds` are the lines each turn heard.
     */
    method Play(pipes: seq<PipeRead>) returns (turns: nat, quit: bool, lines: seq<seq<char>>, ghost rounds: seq<seq<seq<char>>>)
      requires Valid()
      modifies this`pos, buffer, this`marks, this`heard, this`out, this`toBoard, this`server, this`mine
      ensures Valid() && heard == old(heard) + lines
      ensures turns == |rounds| <= |pipes| && lines == Joined(rounds)
      ensures turns > 0 ==> GoesOn(rounds[..turns - 1], pipes)
      ensures quit <==> turns > 0 && Matched(rounds[turns - 1], pipes[turns - 1]) && rounds[turns - 1][4] == "q"
      ensures turns < |pipes| ==> !GoesOn(rounds, pipes)
      ensures Progress(out, toBoard, server, mine) == Turns(old(Progress(out, toBoard, server, mine)), size, rounds, pipes)
    {
      turns, quit, lines, rounds := 0, false, [], [];
      var go := true;
      ghost var start := Progress(out, toBoard, server, mine);
      while go && !quit && turns < |pipes|
        invariant Valid() && turns == |rounds| <= |pipes|
        invariant lines == Joined(rounds) && heard == old(heard) + lines
        invariant turns > 0 ==> GoesOn(rounds[..turns - 1], pipes)
        invariant go && !quit <==> GoesOn(rounds, pipes)
        invariant turns > 0 ==> (go <==> Matched(rounds[turns - 1], pipes[turns - 1])) && (quit <==> go && rounds[turns - 1][4] == "q")
        invariant Progress(out, toBoard, server, mine) == Turns(start, size, rounds, pipes)
      {
        var more;
        go, quit, more, rounds := Next(pipes, turns, start, rounds);
        Extend(old(heard), lines, more);
        lines := lines + more;
        turns := turns + 1;
      }
    }
  }

  /**
   * What a client has heard when the server wrote short messages without
   * newline or NUL: exactly those messages, one per read_line, and it has
   * read up to the end of the last one.
   */
  lemma Hears(c: Client, words: seq<seq<char>>, rest: seq<char>)
    requires c.Valid() && Plain(words) && |words| == |c.heard|
    requires c.input == Wire(words) + rest
    ensures c.heard == words && c.pos == |Wire(words)|
  {
    TracedChain(c.input, c.marks, c.heard, 2);
    ChainHeard(c.input, c.marks, c.heard);
    HeardWire(c.input, c.marks[0], words, rest);
  }
}
