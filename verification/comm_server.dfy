/**
 * The server side of the network bridge (Communication_Server.c): after a
 * client connects it runs a two-step handshake, then one exchange per loop
 * turn in a fixed order, relaying its own drone's position to the client
 * and the client's position to the Coordinator, and says `quit` at the end.
 * The client's bytes are the sequence `input`, read from position `pos`;
 * everything the server sends to the client is `out`.
 */
module CommServer {
  import opened CText
  import opened Framing

  /** The size of the server's line buffer. */
  const LineSize := 256

  /** A position in window cells (a pair of C floats). */
  datatype Pos = Pos(x: real, y: real)

  /**
   * The float conversions the server uses, which the model takes as given:
   * sscanf with `"%f,%f"` (the Coordinator's format; the values it converted
   * before it stopped, in order) and `"%f %f"` (the client's; a position
   * only when both convert), and snprintf with `"%.1f %.1f"` and
   * `"%.1f,%.1f"`.
   */
  datatype FloatText = FloatText(
    scanComma: seq<char> -> seq<real>,
    scanSpace: seq<char> -> Option<Pos>,
    showSpace: Pos -> seq<char>,
    showComma: Pos -> seq<char>)

  /** The first line the client sends, read from `pos`. */
  function LineAt(input: seq<char>, pos: nat): Option<(seq<char>, nat)>
    requires pos <= |input|
  {
    Receive(input[pos..], LineSize - 1)
  }

  /** Whether the client's first two lines are `ook` and `w_h`. */
  predicate Accepts(input: seq<char>) {
    Says(LineAt(input, 0), "ook") && Says(LineAt(input, LineAt(input, 0).value.1), "w_h")
  }

  /**
   * The handshake: send `ok`, require the line `ook`, send `"<w>,<h>"`,
   * require the line `w_h`.  A read failure or any other line makes the
   * server return 1.
   */
  method Handshake(input: seq<char>, width: int, height: int) returns (ok: bool, out: seq<seq<char>>, next: nat)
    ensures next <= |input|
    ensures ok <==> Accepts(input)
    ensures out == ["ok"] + if Says(LineAt(input, 0), "ook") then [FormatPair(width, height)] else []
    ensures ok ==> next == LineAt(input, 0).value.1 + LineAt(input, LineAt(input, 0).value.1).value.1
  {
    var line, first := ReadFresh(input, 0, LineSize);
    assert input[0..] == input;
    var greeted := line.Some? && CString(line.value) == "ook";
    out, next, ok := ["ok"], first, false;
    if greeted {
      out := out + [FormatPair(width, height)];
      var reply;
      reply, next := ReadFresh(input, first, LineSize);
      ok := reply.Some? && CString(reply.value) == "w_h";
    }
  }

  /**
   * Two lines the client writes with write_line, each short and free of
   * newlines and NULs, come out of two reads as they were sent.
   */
  lemma TwoLines(a: seq<char>, b: seq<char>, rest: seq<char>)
    requires '\n' !in a && '\0' !in a && |a| < LineSize - 1
    requires '\n' !in b && '\0' !in b && |b| < LineSize - 1
    ensures LineAt(Frame(a) + Frame(b) + rest, 0) == Some((a, |a| + 1))
    ensures LineAt(Frame(a) + Frame(b) + rest, |a| + 1) == Some((b, |b| + 1))
  {
    var input := Frame(a) + Frame(b) + rest;
    CStringOfPlain(a);
    assert input == Frame(a) + (Frame(b) + rest) && input[0..] == input;
    FrameRoundTrip(a, Frame(b) + rest, LineSize - 1);
    assert input[|a| + 1..] == Frame(b) + rest;
    FrameRoundTrip(b, rest, LineSize - 1);
  }

  /** A client that answers `ook` and `w_h` passes the handshake. */
  lemma HandshakeAccepts(rest: seq<char>)
    ensures Accepts(Frame("ook") + Frame("w_h") + rest)
  {
    TwoLines("ook", "w_h", rest);
    CStringOfPlain("ook");
    CStringOfPlain("w_h");
  }

  /**
   * A client that answers `dok` and then sends a line gets that line to
   * the server, which reads exactly those two lines.
   */
  lemma TurnAccepts(line: seq<char>, rest: seq<char>)
    requires '\n' !in line && '\0' !in line && |line| < LineSize - 1
    ensures Replies(Frame("dok") + Frame(line) + rest, 0) == Reply(true, Some(line), |line| + 5)
  {
    TwoLines("dok", line, rest);
    CStringOfPlain("dok");
  }

  /** What the select/read on the Coordinator's pipe gives in one turn. */
  datatype Board = Quiet | Data(bytes: seq<char>) | Broken

  /** The values `"%f,%f"` converts from a turn's Coordinator message; none without one. */
  function Scanned(board: Board, f: FloatText): seq<real> {
    if board.Data? && |board.bytes| > 0 then f.scanComma(CString(board.bytes)) else []
  }

  /** The position a turn's Coordinator message carries when both coordinates convert. */
  function Reading(board: Board, f: FloatText): (r: Option<Pos>)
    ensures r.Some? <==> |Scanned(board, f)| >= 2
  {
    var vs := Scanned(board, f);
    if |vs| >= 2 then Some(Pos(vs[0], vs[1])) else None
  }

  /**
   * The last position known after a turn.  sscanf stores each value it
   * converts as it goes, so a message with only a valid `x` replaces `x`
   * and keeps `y`, although the turn logs it as invalid.
   */
  function Kept(last: Pos, board: Board, f: FloatText): (p: Pos)
    ensures Reading(board, f).Some? ==> p == Reading(board, f).value
    ensures Scanned(board, f) == [] ==> p == last
    ensures |Scanned(board, f)| == 1 ==> p == Pos(Scanned(board, f)[0], last.y)
  {
    var vs := Scanned(board, f);
    Pos(if |vs| >= 1 then vs[0] else last.x, if |vs| >= 2 then vs[1] else last.y)
  }

  /**
   * The channels of the server: the read position in the client's bytes,
   * the messages handed to write_line for the client (each goes on the wire
   * as `Frame` of it) and the messages written to the Coordinator.
   */
  datatype Link = Link(pos: nat, out: seq<seq<char>>, toBoard: seq<seq<char>>)

  /** The messages a whole turn sends to the client, in order. */
  function TurnWords(p: Pos, f: FloatText): (w: seq<seq<char>>)
    ensures |w| == 4 && w[0] == "drone" && w[2] == "obst" && w[3] == "pok"
  {
    ["drone", f.showSpace(p), "obst", "pok"]
  }

  /**
   * What the client's side of a turn comes to: whether it answered `dok`
   * to the position, the position line it sent next (None when that read
   * failed or never happened) and where the reads left off.
   */
  datatype Reply = Reply(acked: bool, client: Option<seq<char>>, next: nat)

  /** The turn's reads from the client's bytes at `pos`. */
  function Replies(input: seq<char>, pos: nat): (r: Reply)
    requires pos <= |input|
    ensures pos <= r.next <= |input|
    ensures r.client.Some? ==> r.acked
  {
    var first := LineAt(input, pos);
    if !Says(first, "dok") then Reply(false, None, if first.None? then |input| else pos + first.value.1)
    else
      var at := pos + first.value.1;
      var second := LineAt(input, at);
      if second.None? then Reply(true, None, |input|) else Reply(true, Some(second.value.0), at + second.value.1)
  }

  /** Every answer's reads end inside the client's bytes, at or after where they began. */
  predicate Answering(rps: seq<Reply>) {
    forall p :: 0 <= p < |rps| ==> p <= rps[p].next < |rps|
  }

  /** The client's answers to a turn at each read position of its bytes. */
  function Answers(input: seq<char>): (a: seq<Reply>)
    ensures |a| == |input| + 1 && Answering(a)
    ensures forall p :: 0 <= p <= |input| ==> a[p] == Replies(input, p)
  {
    seq(|input| + 1, p requires 0 <= p <= |input| => Replies(input, p))
  }

  /**
   * How many of a turn's messages go out before it ends: after `drone` a
   * broken Coordinator pipe ends it, after the position a reply other than
   * `dok`, after `obst` a failed read of the client's line.
   */
  function Reached(board: Board, r: Reply): (k: nat)
    ensures 1 <= k <= 4
  {
    if board.Broken? then 1 else if !r.acked then 2 else if r.client.None? then 3 else 4
  }

  /** What the turn writes to the Coordinator for the client's line: nothing when it does not parse. */
  function Posting(line: seq<char>, f: FloatText): (w: seq<seq<char>>)
    ensures |w| <= 1
    ensures w == [] <==> f.scanSpace(CString(line)).None?
    ensures w != [] ==> w[0] == f.showComma(f.scanSpace(CString(line)).value) + ['\0']
  {
    match f.scanSpace(CString(line))
    case None => []
    case Some(p) => [f.showComma(p) + ['\0']]
  }

  /**
   * What a turn does to the channels, with `now` the position it reports
   * and `rp` what the client answered: whether the loop goes on, and the
   * channels after it.  A turn only appends, sends one to four messages,
   * and goes on exactly when it sent all four; only such a turn can
   * forward a position to the Coordinator.
   */
  function Advance(link: Link, now: Pos, board: Board, rp: Reply, f: FloatText): (r: (bool, Link))
    ensures r.1.pos == if board.Broken? then link.pos else rp.next
    ensures |link.out| < |r.1.out| <= |link.out| + 4 && link.out <= r.1.out
    ensures r.1.out[|link.out|] == "drone"
    ensures r.0 <==> r.1.out == link.out + TurnWords(now, f)
    ensures r.0 <==> |r.1.out| == |link.out| + 4
    ensures |r.1.toBoard| <= |link.toBoard| + 1 && link.toBoard <= r.1.toBoard
    ensures !r.0 ==> r.1.toBoard == link.toBoard
  {
    if board.Broken? then (false, link.(out := link.out + ["drone"]))
    else
      var go := rp.acked && rp.client.Some?;
      (go, Link(rp.next, link.out + TurnWords(now, f)[..Reached(board, rp)],
                link.toBoard + (if go then Posting(rp.client.value, f) else [])))
  }

  /** A turn on the client's bytes: `Advance` with the replies read at the link's position. */
  function TurnLink(input: seq<char>, link: Link, now: Pos, board: Board, f: FloatText): (r: (bool, Link))
    requires link.pos <= |input|
    ensures link.pos <= r.1.pos <= |input|
  {
    Advance(link, now, board, Replies(input, link.pos), f)
  }

  /**
   * One turn of the main loop (after the termination check): send `drone`,
   * take a new position from the Coordinator if one is waiting, send the
   * last known position, require `dok`, send `obst`, read the client's
   * line, answer `pok` and forward the client's position if it parses.
   * `go` is false when the loop breaks.
   */
  method Turn(input: seq<char>, link: Link, last: Pos, board: Board, f: FloatText)
    returns (go: bool, after: Link, now: Pos, renewed: bool)
    requires link.pos <= |input|
    ensures now == Kept(last, board, f) && (renewed <==> Reading(board, f).Some?)
    ensures (go, after) == TurnLink(input, link, now, board, f)
  {
    now, renewed, go := last, false, false;
    after := link.(out := link.out + ["drone"]);
    if !board.Broken? {
      now, renewed := Sample(last, board, f);
      go, after := Converse(input, link, now, board, f);
    }
  }

  /**
   * The rest of a turn once the Coordinator's pipe was read: `drone`, the
   * position `now`, `dok` required, `obst`, the client's line, `pok` and
   * the forwarded position.
   */
  method Converse(input: seq<char>, link: Link, now: Pos, board: Board, f: FloatText) returns (go: bool, after: Link)
    requires link.pos <= |input| && !board.Broken?
    ensures (go, after) == TurnLink(input, link, now, board, f)
  {
    var r := Exchange(input, link.pos);
    var words := ["drone", f.showSpace(now)];
    if r.acked {
      words := words + ["obst"];
    }
    var posting := [];
    go := false;
    if r.client.Some? {
      words := words + ["pok"];
      posting := Posting(r.client.value, f);
      go := true;
    }
    assert words == TurnWords(now, f)[..Reached(board, r)];
    after := Link(r.next, link.out + words, link.toBoard + posting);
  }

  /**
   * The select and read on the Coordinator's pipe: the converted values of
   * `"<x>,<y>"` are stored one by one, and the position counts as renewed
   * only when both converted.
   */
  method Sample(last: Pos, board: Board, f: FloatText) returns (now: Pos, renewed: bool)
    ensures now == Kept(last, board, f) && (renewed <==> Reading(board, f).Some?)
  {
    now, renewed := last, false;
    if board.Data? && |board.bytes| > 0 {
      var vs := f.scanComma(CString(board.bytes));
      if |vs| >= 1 {
        now := now.(x := vs[0]);
      }
      if |vs| >= 2 {
        now := now.(y := vs[1]);
      }
      renewed := |vs| >= 2;
    }
  }

  /**
   * The turn's two reads from the client: the reply to the position, which
   * must be `dok`, and then the client's own position line.
   */
  method Exchange(input: seq<char>, pos: nat) returns (r: Reply)
    requires pos <= |input|
    ensures r == Replies(input, pos)
  {
    var line, next := ReadFresh(input, pos, LineSize);
    var acked := line.Some? && CString(line.value) == "dok";
    r := Reply(acked, None, next);
    if acked {
      var client, end := ReadFresh(input, next, LineSize);
      r := Reply(true, client, end);
    }
  }

  /**
   * The position the server reports after `n` turns: the window centre
   * until the Coordinator sends one that parses, then the latest of those.
   */
  function LastPos(centre: Pos, boards: seq<Board>, n: nat, f: FloatText): Pos
    requires n <= |boards|
  {
    if n == 0 then centre else Kept(LastPos(centre, boards, n - 1, f), boards[n - 1], f)
  }

  /** Without any message that converts a value, the reported position stays the centre. */
  lemma {:induction false} CentreUntilReading(centre: Pos, boards: seq<Board>, n: nat, f: FloatText)
    requires n <= |boards|
    requires forall i :: 0 <= i < n ==> Scanned(boards[i], f) == []
    ensures LastPos(centre, boards, n, f) == centre
  {
    if n > 0 {
      CentreUntilReading(centre, boards, n - 1, f);
    }
  }

  /** A full reading is what the server reports until a later message converts a value. */
  lemma {:induction false} LatestReading(centre: Pos, boards: seq<Board>, k: nat, n: nat, f: FloatText)
    requires k < n <= |boards| && Reading(boards[k], f).Some?
    requires forall i :: k < i < n ==> Scanned(boards[i], f) == []
    ensures LastPos(centre, boards, n, f) == Reading(boards[k], f).value
  {
    if n > k + 1 {
      LatestReading(centre, boards, k, n - 1, f);
    }
  }

  /**
   * The rest of a session from turn `i` on, with channels `link` and last
   * known position `last`: the channels, the number of turns played, the
   * last position and whether a turn broke off.  The loop stops before a
   * turn with a termination request, after a turn that breaks off, or when
   * the turns run out.  `rps` holds the client's answers to a turn at
   * each read position (`Answers`).
   */
  function Rest(rps: seq<Reply>, link: Link, last: Pos, exits: seq<bool>, boards: seq<Board>, i: nat, f: FloatText)
    : (r: (Link, nat, Pos, bool))
    requires Answering(rps) && link.pos < |rps| && i <= |boards| == |exits|
    ensures i <= r.1 <= |boards| && link.pos <= r.0.pos < |rps|
    ensures forall j :: i <= j < r.1 ==> !exits[j]
    ensures !r.3 ==> r.1 == |boards| || exits[r.1]
    ensures r.3 ==> i < r.1
    decreases |boards| - i, 1
  {
    if i == |boards| || exits[i] then (link, i, last, false)
    else RestTurn(rps, link, Kept(last, boards[i], f), exits, boards, i, f)
  }

  /**
   * Turn `i` of the rest of a session once the Coordinator's pipe has given
   * the position `now`, and the turns after it when it does not break off.
   */
  function RestTurn(rps: seq<Reply>, link: Link, now: Pos, exits: seq<bool>, boards: seq<Board>, i: nat, f: FloatText)
    : (r: (Link, nat, Pos, bool))
    requires Answering(rps) && link.pos < |rps| && i < |boards| == |exits|
    ensures i < r.1 <= |boards| && link.pos <= r.0.pos < |rps|
    ensures forall j :: i < j < r.1 ==> !exits[j]
    ensures !r.3 ==> r.1 == |boards| || exits[r.1]
    decreases |boards| - i, 0
  {
    var t := Advance(link, now, boards[i], rps[link.pos], f);
    if !t.0 then (t.1, i + 1, now, true)
    else Rest(rps, t.1, now, exits, boards, i + 1, f)
  }

  /**
   * How much the client receives in the rest of a session: all four
   * messages for every turn played, except a broken last one, which sends
   * fewer.
   */
  lemma {:induction false} RestMessages(rps: seq<Reply>, link: Link, last: Pos, exits: seq<bool>, boards: seq<Board>, i: nat, f: FloatText)
    requires Answering(rps) && link.pos < |rps| && i <= |boards| == |exits|
    ensures var r := Rest(rps, link, last, exits, boards, i, f);
      && (!r.3 ==> |r.0.out| == |link.out| + 4 * (r.1 - i))
      && (r.3 ==> |link.out| + 4 * (r.1 - i - 1) < |r.0.out| < |link.out| + 4 * (r.1 - i))
    decreases |boards| - i
  {
    if i < |boards| && !exits[i] {
      var now := Kept(last, boards[i], f);
      var t := Advance(link, now, boards[i], rps[link.pos], f);
      assert Rest(rps, link, last, exits, boards, i, f) == RestTurn(rps, link, now, exits, boards, i, f);
      if t.0 {
        assert |t.1.out| == |link.out| + 4;
        RestMessages(rps, t.1, now, exits, boards, i + 1, f);
      } else {
        assert |link.out| < |t.1.out| < |link.out| + 4;
      }
    }
  }

  /** The messages already sent stay a prefix of what the rest of a session sends. */
  lemma {:induction false} RestKeepsMessages(rps: seq<Reply>, link: Link, last: Pos, exits: seq<bool>, boards: seq<Board>, i: nat, f: FloatText)
    requires Answering(rps) && link.pos < |rps| && i <= |boards| == |exits|
    ensures var r := Rest(rps, link, last, exits, boards, i, f);
      link.out <= r.0.out
    decreases |boards| - i
  {
    if i < |boards| && !exits[i] {
      var now := Kept(last, boards[i], f);
      var t := Advance(link, now, boards[i], rps[link.pos], f);
      assert Rest(rps, link, last, exits, boards, i, f) == RestTurn(rps, link, now, exits, boards, i, f);
      assert link.out <= t.1.out;
      if t.0 {
        RestKeepsMessages(rps, t.1, now, exits, boards, i + 1, f);
        var r := Rest(rps, t.1, now, exits, boards, i + 1, f);
      }
    }
  }

  /** Each turn of the rest of a session forwards at most one position to the Coordinator, and none is lost. */
  lemma {:induction false} RestForwards(rps: seq<Reply>, link: Link, last: Pos, exits: seq<bool>, boards: seq<Board>, i: nat, f: FloatText)
    requires Answering(rps) && link.pos < |rps| && i <= |boards| == |exits|
    ensures var r := Rest(rps, link, last, exits, boards, i, f);
      |r.0.toBoard| <= |link.toBoard| + (r.1 - i) && link.toBoard <= r.0.toBoard
    decreases |boards| - i
  {
    if i < |boards| && !exits[i] {
      var now := Kept(last, boards[i], f);
      var t := Advance(link, now, boards[i], rps[link.pos], f);
      assert Rest(rps, link, last, exits, boards, i, f) == RestTurn(rps, link, now, exits, boards, i, f);
      assert |t.1.toBoard| <= |link.toBoard| + 1 && link.toBoard <= t.1.toBoard;
      if t.0 {
        RestForwards(rps, t.1, now, exits, boards, i + 1, f);
        var r := Rest(rps, t.1, now, exits, boards, i + 1, f);
      }
    }
  }

  /** Where the client's bytes stand after a successful handshake. */
  function Greeted(input: seq<char>): (n: nat)
    requires Accepts(input)
    ensures n <= |input|
  {
    LineAt(input, 0).value.1 + LineAt(input, LineAt(input, 0).value.1).value.1
  }

  /**
   * The server from the handshake on: the turns' termination flags and
   * Coordinator reads are given in `exits` and `boards`; the loop ends at a
   * termination request, a broken turn or when the turns run out, and then
   * `quit` is sent.  Status 1 is a failed handshake.
   */
  method Serve(input: seq<char>, width: int, height: int, exits: seq<bool>, boards: seq<Board>, f: FloatText)
    returns (status: int, link: Link, played: nat, last: Pos)
    requires |exits| == |boards|
    ensures status == 0 || status == 1
    ensures status == 1 <==> !Accepts(input)
    ensures status == 1 ==> link.toBoard == [] && played == 0
    ensures status == 1 ==> link.out == ["ok"] + if Says(LineAt(input, 0), "ook") then [FormatPair(width, height)] else []
    ensures status == 0 ==> var centre := Pos(width as real / 2.0, height as real / 2.0);
      var r := Rest(Answers(input), Link(Greeted(input), [], []), centre, exits, boards, 0, f);
      && link == Link(r.0.pos, ["ok", FormatPair(width, height)] + r.0.out + ["quit"], r.0.toBoard)
      && played == r.1 && last == r.2
      && last == LastPos(centre, boards, played, f)
  {
    var ok, out, next := Handshake(input, width, height);
    var centre := Pos(width as real / 2.0, height as real / 2.0);
    link, played, last, status := Link(next, out, []), 0, centre, 1;
    if ok {
      var turns, broke;
      assert next == Greeted(input) && out == ["ok", FormatPair(width, height)];
      turns, played, last, broke := Session(input, next, centre, exits, boards, f);
      link := Link(turns.pos, out + turns.out + ["quit"], turns.toBoard);
      status := 0;
    }
  }

  /**
   * The main loop after the handshake, from the client's byte `pos` on and
   * with the window centre as the first position: it runs turns until a
   * termination request, a turn that breaks off (`broke`) or the end of the
   * given turns.
   */
  method Session(input: seq<char>, pos: nat, centre: Pos, exits: seq<bool>, boards: seq<Board>, f: FloatText)
    returns (link: Link, played: nat, last: Pos, broke: bool)
    requires pos <= |input| && |exits| == |boards|
    ensures (link, played, last, broke) == Rest(Answers(input), Link(pos, [], []), centre, exits, boards, 0, f)
    ensures last == LastPos(centre, boards, played, f)
  {
    link, played, last, broke := Link(pos, [], []), 0, centre, false;
    ghost var rps := Answers(input);
    while !broke && played < |boards| && !exits[played]
      invariant played <= |boards| && link.pos <= |input|
      invariant last == LastPos(centre, boards, played, f)
      invariant !broke ==> Rest(rps, link, last, exits, boards, played, f) == Rest(rps, Link(pos, [], []), centre, exits, boards, 0, f)
      invariant broke ==> (link, played, last, broke) == Rest(rps, Link(pos, [], []), centre, exits, boards, 0, f)
      decreases |boards| - played, if broke then 0 else 1
    {
      var go, renewed;
      ghost var step := RestTurn(rps, link, Kept(last, boards[played], f), exits, boards, played, f);
      assert rps[link.pos] == Replies(input, link.pos);
      go, link, last, renewed := Turn(input, link, last, boards[played], f);
      broke := !go;
      played := played + 1;
    }
  }
}
