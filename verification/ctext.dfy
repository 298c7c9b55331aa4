/**
 * Text conventions of the C library that every process of the simulation
 * relies on: a character buffer holds a C string up to its first NUL,
 * `isspace`, `%d` formatting, the subset of `sscanf` the processes use,
 * `atoi`, `strtok` with a `_` delimiter and line reading with `fgets`.
 */
module CText {

  datatype Option<T> = None | Some(value: T)

  /** `isspace` in the C locale. */
  predicate IsSpace(c: char) {
    c == ' ' || c == '\t' || c == '\n' || c == '\U{B}' || c == '\U{C}' || c == '\r'
  }

  predicate IsDigit(c: char) {
    '0' <= c <= '9'
  }

  predicate AllDigits(s: seq<char>) {
    forall i :: 0 <= i < |s| ==> IsDigit(s[i])
  }

  /** The C string held by a character buffer: everything before its first NUL. */
  function CString(s: seq<char>): (r: seq<char>)
    ensures r <= s && '\0' !in r
    ensures |r| < |s| ==> s[|r|] == '\0'
  {
    if s == [] || s[0] == '\0' then [] else [s[0]] + CString(s[1..])
  }

  function Concat(ls: seq<seq<char>>): seq<char> {
    if ls == [] then [] else ls[0] + Concat(ls[1..])
  }

  // ---------------------------------------------------------------------
  // %d formatting

  function DigitChar(d: nat): (c: char)
    requires d < 10
    ensures IsDigit(c)
  {
    ('0' as int + d) as char
  }

  function DigitValue(c: char): (d: nat)
    requires IsDigit(c)
    ensures d < 10
  {
    c as int - '0' as int
  }

  /** The decimal digits of n, most significant first, without leading zeros. */
  function FormatNat(n: nat): (s: seq<char>)
    ensures 1 <= |s| && AllDigits(s)
    decreases n
  {
    if n < 10 then [DigitChar(n)] else FormatNat(n / 10) + [DigitChar(n % 10)]
  }

  /** What `printf("%d", n)` prints. */
  function FormatInt(n: int): (s: seq<char>)
    ensures 1 <= |s|
    ensures n >= 0 ==> AllDigits(s)
    ensures n < 0 ==> s[0] == '-' && AllDigits(s[1..])
  {
    if n < 0 then ['-'] + FormatNat(-n) else FormatNat(n)
  }

  /** The number a string of decimal digits denotes. */
  function DigitsValue(s: seq<char>): nat
    requires AllDigits(s)
  {
    if s == [] then 0 else DigitsValue(s[..|s| - 1]) * 10 + DigitValue(s[|s| - 1])
  }

  lemma {:induction false} FormatNatValue(n: nat)
    ensures DigitsValue(FormatNat(n)) == n
  {
    if n >= 10 {
      var s := FormatNat(n);
      assert s[..|s| - 1] == FormatNat(n / 10);
      FormatNatValue(n / 10);
    }
  }

  function Pow10(k: nat): (p: nat)
    ensures p >= 1
  {
    if k == 0 then 1 else 10 * Pow10(k - 1)
  }

  /** A number below 10^k takes at most k digits. */
  lemma {:induction false} FormatNatLength(n: nat, k: nat)
    requires k >= 1 && n < Pow10(k)
    ensures |FormatNat(n)| <= k
  {
    if n >= 10 {
      assert k >= 1 && Pow10(k) == 10 * Pow10(k - 1);
      assert n / 10 < Pow10(k - 1);
      assert FormatNat(n) == FormatNat(n / 10) + [DigitChar(n % 10)];
      FormatNatLength(n / 10, k - 1);
    }
  }

  /** A 32-bit signed number prints in at most 11 characters. */
  lemma {:induction false} FormatInt32Length(n: int)
    requires -0x8000_0000 <= n < 0x8000_0000
    ensures |FormatInt(n)| <= 11
  {
    assert Pow10(10) == 10_000_000_000;
    if n < 0 { FormatNatLength(-n, 10); } else { FormatNatLength(n, 10); }
  }

  // ---------------------------------------------------------------------
  // sscanf

  /** Everything after the leading white space of s. */
  function SkipSpace(s: seq<char>): (r: seq<char>)
    ensures |r| <= |s|
    ensures r == [] || !IsSpace(r[0])
    ensures forall i :: 0 <= i < |s| - |r| ==> IsSpace(s[i])
  {
    if s != [] && IsSpace(s[0]) then SkipSpace(s[1..]) else s
  }

  /** Length of the longest prefix of s made of digits. */
  function DigitRun(s: seq<char>): (k: nat)
    ensures k <= |s| && AllDigits(s[..k])
    ensures k < |s| ==> !IsDigit(s[k])
  {
    if s != [] && IsDigit(s[0]) then
      var k := 1 + DigitRun(s[1..]);
      assert s[..k] == [s[0]] + s[1..][..k - 1];
      k
    else 0
  }

  /** Length of the longest prefix of s without white space. */
  function WordRun(s: seq<char>): (k: nat)
    ensures k <= |s|
    ensures forall i :: 0 <= i < k ==> !IsSpace(s[i])
    ensures k < |s| ==> IsSpace(s[k])
  {
    if s != [] && !IsSpace(s[0]) then 1 + WordRun(s[1..]) else 0
  }

  /** An unsigned run of digits: its value and the unread rest, or None when there is no digit. */
  function ScanDigitRun(u: seq<char>): (r: Option<(int, seq<char>)>)
    ensures r.Some? ==> |r.value.1| < |u| && r.value.0 >= 0
  {
    var k := DigitRun(u);
    if k == 0 then None else Some((DigitsValue(u[..k]) as int, u[k..]))
  }

  /**
   * The `%d` conversion: skips white space, reads an optional sign and at
   * least one digit.  Yields the value and the unread rest of the input, or
   * None on a matching failure.
   */
  function ScanInt(s: seq<char>): (r: Option<(int, seq<char>)>)
    ensures r.Some? ==> |r.value.1| < |s|
  {
    var t := SkipSpace(s);
    if t != [] && t[0] == '-' then
      (match ScanDigitRun(t[1..])
       case None => None
       case Some((v, rest)) => Some((-v, rest)))
    else if t != [] && t[0] == '+' then ScanDigitRun(t[1..])
    else ScanDigitRun(t)
  }

  /** The `%s` conversion: skips white space and reads a non-empty run of non-space characters. */
  function ScanWord(s: seq<char>): (r: Option<(seq<char>, seq<char>)>)
    ensures r.Some? ==> r.value.0 != [] && |r.value.1| < |s|
    ensures r.Some? ==> forall i :: 0 <= i < |r.value.0| ==> !IsSpace(r.value.0[i])
  {
    var t := SkipSpace(s);
    var k := WordRun(t);
    if k == 0 then None else Some((t[..k], t[k..]))
  }

  /** One directive of a `scanf` format: white space, a literal character, `%d` or `%s`. */
  datatype Directive = Space | Lit(c: char) | Int | Word

  datatype Value = IntVal(i: int) | WordVal(w: seq<char>)

  function Lits(w: seq<char>): (f: seq<Directive>)
    ensures |f| == |w|
  {
    if w == [] then [] else [Lit(w[0])] + Lits(w[1..])
  }

  function Conversions(fmt: seq<Directive>): nat {
    if fmt == [] then 0 else (if fmt[0].Int? || fmt[0].Word? then 1 else 0) + Conversions(fmt[1..])
  }

  /**
   * `sscanf(s, fmt, ...)`: the values converted before the first failure, in
   * format order.  Their number is what `sscanf` returns (when it is not EOF).
   */
  function Scan(fmt: seq<Directive>, s: seq<char>): (vs: seq<Value>)
    ensures |vs| <= Conversions(fmt)
    decreases |fmt|
  {
    if fmt == [] then []
    else match fmt[0]
      case Space => Scan(fmt[1..], SkipSpace(s))
      case Lit(c) => if s != [] && s[0] == c then Scan(fmt[1..], s[1..]) else []
      case Int =>
        (match ScanInt(s)
         case None => []
         case Some((v, rest)) => [IntVal(v)] + Scan(fmt[1..], rest))
      case Word =>
        (match ScanWord(s)
         case None => []
         case Some((w, rest)) => [WordVal(w)] + Scan(fmt[1..], rest))
  }

  /** `"%d,%d"` */
  const PairFormat: seq<Directive> := [Int, Lit(','), Int]

  /** What `sprintf(buf, "%d,%d", x, y)` writes. */
  function FormatPair(x: int, y: int): seq<char> {
    FormatInt(x) + ([','] + FormatInt(y))
  }

  /** `atoi`: the `%d` conversion of the C string, or 0 when it fails. */
  function Atoi(s: seq<char>): int {
    match ScanInt(CString(s))
    case Some((v, _)) => v
    case None => 0
  }

  lemma {:induction false} DigitRunOfDigits(d: seq<char>, rest: seq<char>)
    requires AllDigits(d)
    requires rest == [] || !IsDigit(rest[0])
    ensures DigitRun(d + rest) == |d|
  {
    if d != [] {
      assert (d + rest)[1..] == d[1..] + rest;
      DigitRunOfDigits(d[1..], rest);
    }
  }

  lemma {:induction false} ScanDigitRunOf(d: seq<char>, rest: seq<char>, v: nat)
    requires d != [] && AllDigits(d) && DigitsValue(d) == v
    requires rest == [] || !IsDigit(rest[0])
    ensures ScanDigitRun(d + rest) == Some((v as int, rest))
  {
    var s := d + rest;
    DigitRunOfDigits(d, rest);
    assert s[..|d|] == d && s[|d|..] == rest;
  }

  /** Input that starts with a digit is a bare digit run. */
  lemma {:induction false} ScanIntDigit(u: seq<char>, v: int, rest: seq<char>)
    requires u != [] && IsDigit(u[0])
    requires ScanDigitRun(u) == Some((v, rest))
    ensures ScanInt(u) == Some((v, rest))
  {
    assert !IsSpace(u[0]);
    assert SkipSpace(u) == u;
  }

  /** A leading `-` is the sign of the digit run after it. */
  lemma {:induction false} ScanIntMinus(d: seq<char>, rest: seq<char>, v: int, after: seq<char>)
    requires ScanDigitRun(d + rest) == Some((v, after))
    ensures ScanInt((['-'] + d) + rest) == Some((-v, after))
  {
    var m := (['-'] + d) + rest;
    assert m[0] == '-' && !IsSpace(m[0]);
    assert SkipSpace(m) == m;
    assert m[1..] == d + rest;
  }

  lemma {:induction false} ScanDigits(d: seq<char>, rest: seq<char>, v: nat)
    requires d != [] && AllDigits(d) && DigitsValue(d) == v
    requires rest == [] || !IsDigit(rest[0])
    ensures ScanInt(d + rest) == Some((v as int, rest))
  {
    assert (d + rest)[0] == d[0];
    ScanDigitRunOf(d, rest, v);
    ScanIntDigit(d + rest, v, rest);
  }

  lemma {:induction false} ScanNegDigits(d: seq<char>, rest: seq<char>, v: nat)
    requires d != [] && AllDigits(d) && DigitsValue(d) == v
    requires rest == [] || !IsDigit(rest[0])
    ensures ScanInt((['-'] + d) + rest) == Some((-(v as int), rest))
  {
    ScanDigitRunOf(d, rest, v);
    ScanIntMinus(d, rest, v, rest);
  }

  /** `%d` reads back exactly what `%d` printed, up to the first non-digit after it. */
  lemma {:induction false} ScanFormatInt(n: int, rest: seq<char>)
    requires rest == [] || !IsDigit(rest[0])
    ensures ScanInt(FormatInt(n) + rest) == Some((n, rest))
  {
    if n < 0 {
      FormatNatValue(-n);
      ScanNegDigits(FormatNat(-n), rest, -n);
    } else {
      FormatNatValue(n);
      ScanDigits(FormatNat(n), rest, n);
    }
  }

  lemma {:induction false} CStringOfPlain(s: seq<char>)
    requires '\0' !in s
    ensures CString(s) == s
  {
    if s != [] {
      assert s[0] in s;
      assert '\0' !in s[1..];
      CStringOfPlain(s[1..]);
    }
  }

  lemma {:induction false} AtoiFormatInt(n: int, rest: seq<char>)
    requires rest == [] || !IsDigit(rest[0])
    requires '\0' !in rest
    ensures Atoi(FormatInt(n) + rest) == n
  {
    var s := FormatInt(n) + rest;
    assert '\0' !in FormatInt(n);
    assert '\0' !in s;
    CStringOfPlain(s);
    ScanFormatInt(n, rest);
  }

  lemma {:induction false} ScanLits(w: seq<char>, fmt: seq<Directive>, s: seq<char>)
    ensures Scan(Lits(w) + fmt, w + s) == Scan(fmt, s)
  {
    if w != [] {
      var f := Lits(w) + fmt;
      assert f[0] == Lit(w[0]);
      assert f[1..] == Lits(w[1..]) + fmt;
      assert (w + s)[1..] == w[1..] + s;
      assert (w + s)[0] == w[0];
      ScanLits(w[1..], fmt, s);
      assert Scan(f, w + s) == Scan(f[1..], (w + s)[1..]);
    } else {
      assert Lits(w) + fmt == fmt;
      assert w + s == s;
    }
  }

  lemma {:induction false} ScanIntStep(fmt: seq<Directive>, s: seq<char>, v: int, rest: seq<char>)
    requires ScanInt(s) == Some((v, rest))
    ensures Scan([Int] + fmt, s) == [IntVal(v)] + Scan(fmt, rest)
  {
    assert ([Int] + fmt)[1..] == fmt;
  }

  lemma {:induction false} ScanLitStep(fmt: seq<Directive>, c: char, s: seq<char>)
    ensures Scan([Lit(c)] + fmt, [c] + s) == Scan(fmt, s)
  {
    assert ([Lit(c)] + fmt)[1..] == fmt;
    assert ([c] + s)[1..] == s;
  }

  lemma {:induction false} ScanCommaInt(y: int)
    ensures Scan([Lit(','), Int], [','] + FormatInt(y)) == [IntVal(y)]
  {
    ScanFormatInt(y, []);
    AppendEmpty(FormatInt(y));
    CommaIntFormat();
    ScanLitStep([Int], ',', FormatInt(y));
    ScanIntStep([], FormatInt(y), y, []);
    ScanEnd(y);
  }

  lemma AppendEmpty(s: seq<char>)
    ensures s + [] == s
  {
  }

  lemma CommaIntFormat()
    ensures [Lit(','), Int] == [Lit(',')] + [Int]
    ensures [Int] + [] == [Int]
    ensures PairFormat == [Int] + [Lit(','), Int]
  {
  }

  lemma ScanEnd(y: int)
    ensures [IntVal(y)] + Scan([], []) == [IntVal(y)]
  {
  }

  lemma TwoValues(x: int, y: int)
    ensures [IntVal(x)] + [IntVal(y)] == [IntVal(x), IntVal(y)]
  {
  }

  /** The `"%d,%d"` message a generator writes parses back to the same pair. */
  lemma {:induction false} ScanFormatPair(x: int, y: int)
    ensures Scan(PairFormat, FormatPair(x, y)) == [IntVal(x), IntVal(y)]
  {
    var tail := [','] + FormatInt(y);
    assert tail[0] == ',';
    ScanFormatInt(x, tail);
    CommaIntFormat();
    ScanIntStep([Lit(','), Int], FormatInt(x) + tail, x, tail);
    ScanCommaInt(y);
    TwoValues(x, y);
  }

  // ---------------------------------------------------------------------
  // strtok

  /** Everything after the leading `_` delimiters of s. */
  function SkipDelims(s: seq<char>): (r: seq<char>)
    ensures |r| <= |s| && (r == [] || r[0] != '_')
  {
    if s != [] && s[0] == '_' then SkipDelims(s[1..]) else s
  }

  function TokenRun(s: seq<char>): (k: nat)
    ensures k <= |s| && '_' !in s[..k]
    ensures k < |s| ==> s[k] == '_'
  {
    if s != [] && s[0] != '_' then
      var k := 1 + TokenRun(s[1..]);
      assert s[..k] == [s[0]] + s[1..][..k - 1];
      k
    else 0
  }

  /**
   * The tokens `strtok(line, "_")` hands out when called in a loop that keeps
   * at most `max` of them: the maximal non-empty runs without `_`, in order.
   */
  function Tokens(s: seq<char>, max: nat): (ts: seq<seq<char>>)
    ensures |ts| <= max
    ensures forall i :: 0 <= i < |ts| ==> ts[i] != [] && '_' !in ts[i]
    decreases |s|
  {
    if max == 0 then []
    else
      var t := SkipDelims(s);
      if t == [] then []
      else
        var k := TokenRun(t);
        [t[..k]] + Tokens(t[k..], max - 1)
  }

  // ---------------------------------------------------------------------
  // fgets

  /** Buffer size the processes pass to `fgets`. */
  const LineBuffer := 256

  /**
   * How many characters one `fgets` call with `room + 1` bytes of buffer takes
   * from s: through the first newline, but never more than `room`.
   */
  function LineLen(s: seq<char>, room: nat): (k: nat)
    ensures k <= |s| && k <= room
    ensures s != [] && room > 0 ==> k > 0
    ensures forall i :: 0 <= i < k - 1 ==> s[i] != '\n'
    ensures 0 < k < |s| && k < room ==> s[k - 1] == '\n'
  {
    if s == [] || room == 0 then 0
    else if s[0] == '\n' then 1
    else 1 + LineLen(s[1..], room - 1)
  }

  /** The successive strings `fgets` returns for a file holding s. */
  function Lines(s: seq<char>, room: nat): (ls: seq<seq<char>>)
    requires room > 0
    ensures forall i :: 0 <= i < |ls| ==> 1 <= |ls[i]| <= room
    decreases |s|
  {
    if s == [] then [] else
      var k := LineLen(s, room);
      [s[..k]] + Lines(s[k..], room)
  }

  /** Reading a file line by line loses and adds nothing. */
  lemma {:induction false} LinesConcat(s: seq<char>, room: nat)
    requires room > 0
    ensures Concat(Lines(s, room)) == s
  {
    if s != [] {
      var k := LineLen(s, room);
      ConcatCons(s[..k], Lines(s[k..], room));
      LinesConcat(s[k..], room);
      SplitAt(s, k);
    }
  }

  lemma SplitAt(s: seq<char>, k: nat)
    requires k <= |s|
    ensures s[..k] + s[k..] == s
  {
  }

  lemma {:induction false} ConcatCons(a: seq<char>, ls: seq<seq<char>>)
    ensures Concat([a] + ls) == a + Concat(ls)
  {
    assert ([a] + ls)[0] == a;
    assert ([a] + ls)[1..] == ls;
  }

  /** A line that ends in its only newline and fits the buffer comes back whole. */
  lemma {:induction false} LinesCons(l: seq<char>, rest: seq<char>, room: nat)
    requires 0 < |l| <= room
    requires l[|l| - 1] == '\n' && forall i :: 0 <= i < |l| - 1 ==> l[i] != '\n'
    ensures Lines(l + rest, room) == [l] + Lines(rest, room)
  {
    LineLenOfLine(l, rest, room);
    assert (l + rest)[..|l|] == l;
    assert (l + rest)[|l|..] == rest;
  }

  lemma {:induction false} LineLenOfLine(l: seq<char>, rest: seq<char>, room: nat)
    requires 0 < |l| <= room
    requires l[|l| - 1] == '\n' && forall i :: 0 <= i < |l| - 1 ==> l[i] != '\n'
    ensures LineLen(l + rest, room) == |l|
  {
    if |l| > 1 {
      var t := l[1..];
      assert (l + rest)[0] == l[0] && l[0] != '\n';
      assert (l + rest)[1..] == t + rest;
      assert t[|t| - 1] == '\n';
      assert forall i :: 0 <= i < |t| - 1 ==> t[i] == l[i + 1];
      LineLenOfLine(t, rest, room - 1);
    }
  }
}
