/**
 * Line framing of the network bridge (Communication_Server.c and
 * Communication_Client.c define the same two helpers).  `read_line` reads a
 * socket one byte at a time into a buffer of `max_len` bytes, stops at a
 * newline, which it consumes but does not store, or when the buffer is one
 * byte short of full, and NUL-terminates what it stored; it returns the
 * number of bytes stored, or -1 when the stream ends first.  `write_line`
 * sends a C string followed by a newline through a 512-byte buffer.
 */
module Framing {
  import opened CText

  /** The size of write_line's buffer. */
  const FrameBuffer := 512

  /**
   * How many bytes read_line stores from the stream `s` when it may store
   * `room`: it stops at the first newline, at the end of the stream or when
   * the line is full.
   */
  function Span(s: seq<char>, room: nat): (k: nat)
    ensures k <= room && k <= |s| && '\n' !in s[..k]
    ensures k < room && k < |s| ==> s[k] == '\n'
  {
    if room == 0 || s == [] || s[0] == '\n' then 0
    else
      var k := 1 + Span(s[1..], room - 1);
      assert s[..k] == [s[0]] + s[1..][..k - 1];
      k
  }

  /** The stopping rule pins the span down. */
  lemma {:induction false} SpanIs(s: seq<char>, room: nat, k: nat)
    requires k <= room && k <= |s| && '\n' !in s[..k]
    requires k < room && k < |s| ==> s[k] == '\n'
    ensures Span(s, room) == k
  {
    if k > 0 {
      assert s[0] == s[..k][0];
      assert s[1..][..k - 1] == s[1..k];
      assert '\n' !in s[1..][..k - 1] by {
        assert forall c :: c in s[1..k] ==> c in s[..k];
      }
      SpanIs(s[1..], room - 1, k - 1);
    }
  }

  /**
   * What read_line takes from the stream `s` when it may store `room`
   * bytes: the line stored and the number of bytes consumed, or None when
   * the stream ends before a newline and before the line is full.
   */
  function Receive(s: seq<char>, room: nat): (r: Option<(seq<char>, nat)>)
    ensures r.None? <==> |s| < room && '\n' !in s
    ensures r.Some? ==> |r.value.0| <= r.value.1 <= |s| && |r.value.0| <= room && r.value.0 == s[..|r.value.0|]
    ensures r.Some? ==> '\n' !in r.value.0
    ensures r.Some? ==> (r.value.1 == |r.value.0| + 1 && s[|r.value.0|] == '\n') || r.value.1 == |r.value.0| == room
  {
    var k := Span(s, room);
    if k == room then Some((s[..k], k))
    else if k == |s| then
      assert s[..k] == s;
      None
    else Some((s[..k], k + 1))
  }

  /**
   * read_line(sockfd, buffer, buffer.Length) on a socket that delivers
   * `input` from position `pos` on: it returns the stored length or -1 and
   * `next`, the position after the bytes it consumed.  On -1 the buffer
   * holds the bytes read so far, without a terminating NUL.
   */
  method ReadLine(input: seq<char>, pos: nat, buffer: array<char>) returns (n: int, next: nat)
    requires pos <= |input| && buffer.Length >= 1
    modifies buffer
    ensures pos <= next <= |input| && n >= -1
    ensures n == -1 <==> Receive(input[pos..], buffer.Length - 1).None?
    ensures n >= 0 ==> n < buffer.Length && buffer[n] == '\0'
    ensures n >= 0 ==> Receive(input[pos..], buffer.Length - 1) == Some((buffer[..n], next - pos))
    ensures n >= 0 ==> buffer[n + 1..] == old(buffer[n + 1..])
    ensures n == -1 ==> next == |input| && |input| - pos < buffer.Length
    ensures n == -1 ==> buffer[..|input| - pos] == input[pos..] && buffer[|input| - pos..] == old(buffer[|input| - pos..])
  {
    var i, ended, newline;
    i, next, ended, newline := FillLine(input, pos, buffer);
    var room := buffer.Length - 1;
    assert input[pos..][..i] == input[pos..pos + i];
    if ended {
      assert input[pos..] == input[pos..pos + i];
      return -1, next;
    }
    if newline {
      ReceiveNewline(input[pos..], room, i);
    } else {
      assert i == room;
      ReceiveFull(input[pos..], room);
    }
    ghost var line := buffer[..i];
    buffer[i] := '\0';
    assert buffer[..i] == line;
    assert buffer[i + 1..] == old(buffer[i + 1..]);
    n := i;
  }

  /**
   * read_line's loop: it stores bytes until the stream ends, a newline is
   * read or `buffer.Length - 1` bytes are stored.
   */
  method FillLine(input: seq<char>, pos: nat, buffer: array<char>) returns (i: nat, next: nat, ended: bool, newline: bool)
    requires pos <= |input| && buffer.Length >= 1
    modifies buffer
    ensures i <= buffer.Length - 1 && pos + i <= |input|
    ensures next == pos + i + (if newline then 1 else 0) <= |input|
    ensures !ended && !newline ==> i == buffer.Length - 1
    ensures buffer[..i] == input[pos..pos + i] && '\n' !in input[pos..pos + i]
    ensures buffer[i..] == old(buffer[i..])
    ensures ended ==> !newline && i < buffer.Length - 1 && pos + i == |input|
    ensures newline ==> i < buffer.Length - 1 && input[pos + i] == '\n'
  {
    i := 0;
    next := pos;
    ended, newline := false, false;
    while i < buffer.Length - 1 && !ended && !newline
      invariant i <= buffer.Length - 1 && pos + i <= |input|
      invariant next == pos + i + (if newline then 1 else 0) <= |input|
      invariant buffer[..i] == input[pos..pos + i] && '\n' !in input[pos..pos + i]
      invariant forall k :: i <= k < buffer.Length ==> buffer[k] == old(buffer[k])
      invariant ended ==> !newline && i < buffer.Length - 1 && pos + i == |input|
      invariant newline ==> i < buffer.Length - 1 && input[pos + i] == '\n'
      decreases buffer.Length - i + (if ended || newline then 0 else 1)
    {
      if next == |input| {
        ended := true;
      } else {
        var c := input[next];
        next := next + 1;
        if c == '\n' {
          newline := true;
        } else {
          buffer[i] := c;
          i := i + 1;
          assert buffer[..i] == buffer[..i - 1] + [c];
          assert input[pos..pos + i] == input[pos..pos + i - 1] + [c];
        }
      }
    }
  }

  lemma ReceiveNewline(s: seq<char>, room: nat, i: nat)
    requires i < room && i < |s| && '\n' !in s[..i] && s[i] == '\n'
    ensures Receive(s, room) == Some((s[..i], i + 1))
  {
    SpanIs(s, room, i);
  }

  lemma ReceiveFull(s: seq<char>, room: nat)
    requires room <= |s| && '\n' !in s[..room]
    ensures Receive(s, room) == Some((s[..room], room))
  {
    SpanIs(s, room, room);
  }

  /**
   * The contents of a buffer `buf` after read_line was given the stream
   * `s`: the line and a NUL over its start, or, when the stream ended
   * first, the bytes read without a NUL; the rest keeps its old contents.
   */
  function AfterRead(buf: seq<char>, s: seq<char>): (b: seq<char>)
    requires |buf| >= 1
    ensures |b| == |buf|
  {
    match Receive(s, |buf| - 1)
    case Some((line, _)) => line + ['\0'] + buf[|line| + 1..]
    case None => s + buf[|s|..]
  }

  /** How many bytes of the stream `s` read_line consumes with `room` bytes to store. */
  function Used(s: seq<char>, room: nat): (k: nat)
    ensures k <= |s|
  {
    match Receive(s, room)
    case Some((_, k)) => k
    case None => |s|
  }

  /** What a strcmp sees after a read_line that succeeded: the line, up to any NUL in it. */
  lemma HeardLine(buf: seq<char>, s: seq<char>)
    requires |buf| >= 1 && Receive(s, |buf| - 1).Some?
    ensures CString(AfterRead(buf, s)) == CString(Receive(s, |buf| - 1).value.0)
  {
    var line := Receive(s, |buf| - 1).value.0;
    CStringStops(line, buf[|line| + 1..]);
  }

  /** A C string ends at the first NUL, whatever follows it. */
  lemma {:induction false} CStringStops(a: seq<char>, rest: seq<char>)
    ensures CString(a + ['\0'] + rest) == CString(a)
  {
    if a != [] && a[0] != '\0' {
      assert (a + ['\0'] + rest)[1..] == a[1..] + ['\0'] + rest;
      CStringStops(a[1..], rest);
    }
  }

  /** A read_line at the end of the stream leaves the buffer as it was: strcmp sees the previous line again. */
  lemma StaleRead(buf: seq<char>)
    requires |buf| >= 2
    ensures AfterRead(buf, []) == buf && Used([], |buf| - 1) == 0
  {
    assert buf[0..] == buf;
  }

  /** read_line into `buffer`, stated as the buffer's new contents. */
  method ReadInto(input: seq<char>, pos: nat, buffer: array<char>) returns (next: nat)
    requires pos <= |input| && buffer.Length >= 1
    modifies buffer
    ensures next == pos + Used(input[pos..], buffer.Length - 1)
    ensures buffer[..] == AfterRead(old(buffer[..]), input[pos..])
  {
    ghost var before := buffer[..];
    var n;
    n, next := ReadLine(input, pos, buffer);
    if n >= 0 {
      BufferAfterLine(before, buffer[..], input[pos..], n, next - pos);
    } else {
      BufferAfterEnd(before, buffer[..], input[pos..]);
    }
  }

  lemma BufferAfterLine(before: seq<char>, after: seq<char>, s: seq<char>, n: nat, k: nat)
    requires |before| == |after| && n < |after|
    requires Receive(s, |before| - 1) == Some((after[..n], k))
    requires after[n] == '\0' && after[n + 1..] == before[n + 1..]
    ensures after == AfterRead(before, s)
  {
    assert after == after[..n] + [after[n]] + after[n + 1..];
  }

  lemma BufferAfterEnd(before: seq<char>, after: seq<char>, s: seq<char>)
    requires |before| == |after| && |before| >= 1 && |s| < |after|
    requires Receive(s, |before| - 1).None?
    requires after[..|s|] == s && after[|s|..] == before[|s|..]
    ensures after == AfterRead(before, s)
  {
    assert after == after[..|s|] + after[|s|..];
  }

  /** read_line into a buffer of `size` bytes whose earlier contents do not matter. */
  method ReadFresh(input: seq<char>, pos: nat, size: nat) returns (line: Option<seq<char>>, next: nat)
    requires pos <= |input| && size >= 1
    ensures pos <= next <= |input|
    ensures line.None? <==> Receive(input[pos..], size - 1).None?
    ensures line.None? ==> next == |input|
    ensures line.Some? ==> Receive(input[pos..], size - 1) == Some((line.value, next - pos))
  {
    var buffer := new char[size];
    var n;
    n, next := ReadLine(input, pos, buffer);
    line := if n == -1 then None else Some(buffer[..n]);
  }

  /**
   * The bytes write_line sends for the C string held in `m`: snprintf of
   * `"%s\n"` into 512 bytes, of which strlen bytes are written.
   */
  function Frame(m: seq<char>): (out: seq<char>)
    ensures |out| == if |CString(m)| < FrameBuffer - 1 then |CString(m)| + 1 else FrameBuffer - 1
    ensures out <= CString(m) + ['\n'] && '\0' !in out
  {
    var full := CString(m) + ['\n'];
    if |full| < FrameBuffer then full else full[..FrameBuffer - 1]
  }

  /**
   * A message without newline or NUL that fits both the sender's and the
   * receiver's buffer comes out of read_line as it went into write_line,
   * with its newline consumed.
   */
  lemma FrameRoundTrip(m: seq<char>, rest: seq<char>, room: nat)
    requires '\n' !in m && '\0' !in m
    requires |m| <= FrameBuffer - 2 && |m| < room
    ensures Receive(Frame(m) + rest, room) == Some((m, |m| + 1))
  {
    CStringOfPlain(m);
    var s := Frame(m) + rest;
    assert s[..|m|] == m && s[|m|] == '\n';
    ReceiveNewline(s, room, |m|);
  }

  /**
   * A line that fills the whole buffer leaves its newline in the stream: the
   * next read_line returns the empty line.
   */
  lemma FullLineSplits(m: seq<char>, rest: seq<char>, room: nat)
    requires '\n' !in m && |m| == room > 0
    ensures Receive(m + ['\n'] + rest, room) == Some((m, room))
    ensures Receive((m + ['\n'] + rest)[room..], room) == Some(([], 1))
  {
    var s := m + ['\n'] + rest;
    assert s[..room] == m;
    ReceiveFull(s, room);
    assert s[room..][..0] == [];
    ReceiveNewline(s[room..], room, 0);
  }

  /** What a strcmp of the stored line against a word decides. */
  predicate Says(r: Option<(seq<char>, nat)>, word: seq<char>) {
    r.Some? && CString(r.value.0) == word
  }
}
