/**
 * The parameter file `Parameter_File.txt`.  Every line is split at `_` and
 * one token is converted: line n sets the n-th parameter.  The Coordinator
 * and the Controller read all nine lines the same way; the two generators
 * read only the window size on lines 1 and 2.
 */
module Params {
  import opened CText

  /** The values the parameter file sets, in line order. */
  datatype Parameters = Parameters(
    windowWidth: int,   // line 1
    windowHeight: int,  // line 2
    rph: int,           // line 3: repulsion radius
    eta: real,          // line 4: repulsion gain, read with atof
    force: int,         // line 5
    mass: int,          // line 6
    k: int,             // line 7: damping
    workingArea: int,   // line 8
    t: int)             // line 9: time step in ms

  /** `strtok` loop keeps at most this many tokens per line. */
  const MaxTokens := 10

  /** The exit status of a generator that cannot open the file. */
  const OpenFail := 66

  /** Token that carries the value of line n: index 1 on line 6, index 2 on every other line. */
  function ValueIndex(n: nat): nat {
    if n == 6 then 1 else 2
  }

  predicate IsIntLine(n: nat) {
    1 <= n <= 9 && n != 4
  }

  /** The integer parameter that line n sets. */
  function IntField(p: Parameters, n: nat): int
    requires IsIntLine(n)
  {
    match n
    case 1 => p.windowWidth
    case 2 => p.windowHeight
    case 3 => p.rph
    case 5 => p.force
    case 6 => p.mass
    case 7 => p.k
    case 8 => p.workingArea
    case 9 => p.t
  }

  function SetIntField(p: Parameters, n: nat, v: int): (q: Parameters)
    requires IsIntLine(n)
    ensures IntField(q, n) == v && q.eta == p.eta
    ensures forall m :: IsIntLine(m) && m != n ==> IntField(q, m) == IntField(p, m)
  {
    match n
    case 1 => p.(windowWidth := v)
    case 2 => p.(windowHeight := v)
    case 3 => p.(rph := v)
    case 5 => p.(force := v)
    case 6 => p.(mass := v)
    case 7 => p.(k := v)
    case 8 => p.(workingArea := v)
    case 9 => p.(t := v)
  }

  /** The tokens of one line as `fgets` returned it. */
  function LineTokens(line: seq<char>): seq<seq<char>> {
    Tokens(CString(line), MaxTokens)
  }

  /** The `switch (line_number)` of Parameter_File: what line n does to the parameters. */
  function ApplyLine(p: Parameters, n: nat, line: seq<char>, atof: seq<char> -> real): Parameters {
    var ts := LineTokens(line);
    if n < 1 || n > 9 || |ts| <= ValueIndex(n) then p
    else if n == 4 then p.(eta := atof(ts[2]))
    else SetIntField(p, n, Atoi(ts[ValueIndex(n)]))
  }

  /** The parameters after the given lines, lines[i] being line number i + 1. */
  function ApplyLines(p: Parameters, lines: seq<seq<char>>, atof: seq<char> -> real): Parameters {
    if lines == [] then p
    else ApplyLine(ApplyLines(p, lines[..|lines| - 1], atof), |lines|, lines[|lines| - 1], atof)
  }

  /** The value line n gives its integer parameter when it has enough tokens. */
  function LineValue(line: seq<char>, n: nat, current: int): int {
    var ts := LineTokens(line);
    if |ts| > ValueIndex(n) then Atoi(ts[ValueIndex(n)]) else current
  }

  /**
   * Each integer parameter is set by its own line alone: from token 2 (token 1
   * on line 6) when that line has enough tokens, and is otherwise left as it was.
   */
  lemma {:induction false} IntFieldFromItsLine(p: Parameters, lines: seq<seq<char>>, n: nat, atof: seq<char> -> real)
    requires IsIntLine(n)
    ensures IntField(ApplyLines(p, lines, atof), n)
         == if |lines| >= n then LineValue(lines[n - 1], n, IntField(p, n)) else IntField(p, n)
  {
    if lines != [] {
      var init := lines[..|lines| - 1];
      IntFieldFromItsLine(p, init, n, atof);
      IntFieldOfLine(ApplyLines(p, init, atof), |lines|, lines[|lines| - 1], n, atof);
      if |lines| > n {
        assert init[n - 1] == lines[n - 1];
      }
    }
  }

  /** One line changes at most the parameter of its own number. */
  lemma IntFieldOfLine(q: Parameters, m: nat, line: seq<char>, n: nat, atof: seq<char> -> real)
    requires IsIntLine(n)
    ensures IntField(ApplyLine(q, m, line, atof), n)
         == if m == n then LineValue(line, n, IntField(q, n)) else IntField(q, n)
  {
  }

  /** Line 4 sets eta from token 2 through `atof`, and nothing else touches it. */
  lemma {:induction false} EtaFromLineFour(p: Parameters, lines: seq<seq<char>>, atof: seq<char> -> real)
    ensures var ts := if |lines| >= 4 then LineTokens(lines[3]) else [];
            ApplyLines(p, lines, atof).eta == if |ts| > 2 then atof(ts[2]) else p.eta
  {
    if lines != [] {
      var init := lines[..|lines| - 1];
      EtaFromLineFour(p, init, atof);
      if |lines| > 4 {
        assert init[3] == lines[3];
      }
    }
  }

  /** Lines after the ninth change nothing. */
  lemma {:induction false} LaterLinesIgnored(p: Parameters, lines: seq<seq<char>>, atof: seq<char> -> real)
    requires |lines| >= 9
    ensures ApplyLines(p, lines, atof) == ApplyLines(p, lines[..9], atof)
  {
    if |lines| > 9 {
      var init := lines[..|lines| - 1];
      LaterLinesIgnored(p, init, atof);
      assert init[..9] == lines[..9];
    } else {
      assert lines[..9] == lines;
    }
  }

  /**
   * Parameter_File of the Coordinator and of the Controller.  A file that
   * cannot be opened leaves every parameter as it was; otherwise each line
   * `fgets` returns is applied in turn.
   */
  method ParameterFile(file: Option<seq<char>>, p: Parameters, atof: seq<char> -> real) returns (q: Parameters)
    ensures file.None? ==> q == p
    ensures file.Some? ==> q == ApplyLines(p, Lines(file.value, LineBuffer - 1), atof)
  {
    q := p;
    if file.None? {
      return;
    }
    var lines := Lines(file.value, LineBuffer - 1);
    var lineNumber := 0;
    while lineNumber < |lines|
      invariant 0 <= lineNumber <= |lines|
      invariant q == ApplyLines(p, lines[..lineNumber], atof)
    {
      lineNumber := lineNumber + 1;
      assert lines[..lineNumber][..lineNumber - 1] == lines[..lineNumber - 1];
      q := ApplyLine(q, lineNumber, lines[lineNumber - 1], atof);
    }
    assert lines[..lineNumber] == lines;
  }

  /** The generators convert no floating-point parameter; any conversion will do for them. */
  function NoFloat(s: seq<char>): real {
    0.0
  }

  /** What a generator's Parameter_File ends in. */
  datatype WindowSize = Exit(code: int) | Size(width: int, height: int)

  /**
   * Parameter_File of the obstacle and target generators: only lines 1 and 2
   * are looked at, and a file that cannot be opened ends the process with
   * status 66.  The window size read is the one the full reader reads.
   */
  method GeneratorParameterFile(file: Option<seq<char>>, width: int, height: int) returns (r: WindowSize)
    ensures file.None? <==> r == Exit(OpenFail)
    ensures file.Some? ==>
      var lines := Lines(file.value, LineBuffer - 1);
      var p := Parameters(width, height, 0, 0.0, 0, 0, 0, 0, 0);
      r == Size(IntField(ApplyLines(p, lines, NoFloat), 1), IntField(ApplyLines(p, lines, NoFloat), 2))
  {
    if file.None? {
      return Exit(OpenFail);
    }
    var lines := Lines(file.value, LineBuffer - 1);
    var w, h := WindowLines(lines, width, height);
    var p := Parameters(width, height, 0, 0.0, 0, 0, 0, 0, 0);
    IntFieldFromItsLine(p, lines, 1, NoFloat);
    IntFieldFromItsLine(p, lines, 2, NoFloat);
    r := Size(w, h);
  }

  /** The generators' line loop: line 1 sets the width, line 2 the height, other lines are skipped. */
  method WindowLines(lines: seq<seq<char>>, width: int, height: int) returns (w: int, h: int)
    ensures w == if |lines| >= 1 then LineValue(lines[0], 1, width) else width
    ensures h == if |lines| >= 2 then LineValue(lines[1], 2, height) else height
  {
    w, h := width, height;
    var lineNumber := 0;
    while lineNumber < |lines|
      invariant 0 <= lineNumber <= |lines|
      invariant w == if lineNumber >= 1 then LineValue(lines[0], 1, width) else width
      invariant h == if lineNumber >= 2 then LineValue(lines[1], 2, height) else height
    {
      var ts := LineTokens(lines[lineNumber]);
      lineNumber := lineNumber + 1;
      if lineNumber == 1 {
        if |ts| > 2 { w := Atoi(ts[2]); }
      } else if lineNumber == 2 {
        if |ts| > 2 { h := Atoi(ts[2]); }
      }
    }
  }
}
