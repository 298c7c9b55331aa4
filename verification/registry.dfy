/**
 * The process registry (logger.h).  Every process appends one line
 * "Process: <name> | PID: <pid>" to `process_log.log` when it starts;
 * `get_pid_by_name` scans the file in order and returns the pid of the first
 * line whose name matches, or -1.
 */
module Registry {
  import opened CText

  /** One registration. */
  datatype Entry = Entry(name: seq<char>, pid: int)

  /** Size of the `name` buffer `sscanf` fills with `%s`. */
  const NameBuffer := 100

  /** A name `%s` reads back whole: non-empty, no white space or NUL, and fits the buffer. */
  predicate ValidName(name: seq<char>) {
    0 < |name| < NameBuffer && forall i :: 0 <= i < |name| ==> !IsSpace(name[i]) && name[i] != '\0'
  }

  /** A registration of a valid name with a 32-bit pid. */
  predicate ValidEntry(e: Entry) {
    ValidName(e.name) && -0x8000_0000 <= e.pid < 0x8000_0000
  }

  /** A line `fgets` returns whole: it ends in its only newline and fits the buffer. */
  predicate WholeLine(line: seq<char>) {
    0 < |line| <= LineBuffer - 1 && line[|line| - 1] == '\n'
    && forall i :: 0 <= i < |line| - 1 ==> line[i] != '\n'
  }

  /** The literal text of the registry line format around its two fields. */
  const Prefix: seq<char> := "Process:"
  const PidLabel: seq<char> := "PID:"

  /** What `log_process` writes for one registration: "Process: %s | PID: %d\n". */
  function LogLine(e: Entry): seq<char> {
    Prefix + (" " + (e.name + PidField(e.pid)))
  }

  /** The part of a registry line after the name: " | PID: %d\n". */
  function PidField(pid: int): seq<char> {
    " " + ("|" + (" " + (PidLabel + (" " + (FormatInt(pid) + "\n")))))
  }

  /** The pid part of a 32-bit pid ends the line, holds no other newline and no NUL, and is short. */
  lemma PidFieldWhole(pid: int)
    requires -0x8000_0000 <= pid < 0x8000_0000
    ensures |PidField(pid)| <= 20 && PidField(pid)[|PidField(pid)| - 1] == '\n' && '\0' !in PidField(pid)
    ensures forall i :: 0 <= i < |PidField(pid)| - 1 ==> PidField(pid)[i] != '\n'
  {
    var f := FormatInt(pid);
    FormatInt32Length(pid);
    forall i | 0 <= i < |f|
      ensures f[i] != '\n' && f[i] != '\0'
    {
      if pid < 0 && i > 0 {
        assert f[i] == f[1..][i - 1];
      }
    }
    var l6 := f + "\n";
    var l5 := " " + l6;
    WholeLineCons(" ", l6);
    var l4 := PidLabel + l5;
    WholeLineCons(PidLabel, l5);
    var l3 := " " + l4;
    WholeLineCons(" ", l4);
    var l2 := "|" + l3;
    WholeLineCons("|", l3);
    WholeLineCons(" ", l2);
  }

  /** A valid registration is written as one whole line without NUL. */
  lemma LogLineWhole(e: Entry)
    requires ValidEntry(e)
    ensures WholeLine(LogLine(e)) && '\0' !in LogLine(e)
  {
    var tail := e.name + PidField(e.pid);
    NamedFieldWhole(e);
    WholeLineCons(Prefix + " ", tail);
    assert LogLine(e) == (Prefix + " ") + tail;
  }

  lemma NamedFieldWhole(e: Entry)
    requires ValidEntry(e)
    ensures var tail := e.name + PidField(e.pid);
      |tail| < 120 && tail[|tail| - 1] == '\n' && '\0' !in tail
      && forall i :: 0 <= i < |tail| - 1 ==> tail[i] != '\n'
  {
    PidFieldWhole(e.pid);
    WholeLineCons(e.name, PidField(e.pid));
  }

  /** A piece without newline or NUL put in front of a line that ends in its only newline. */
  lemma WholeLineCons(a: seq<char>, rest: seq<char>)
    requires forall i :: 0 <= i < |a| ==> a[i] != '\n' && a[i] != '\0'
    requires 0 < |rest| && rest[|rest| - 1] == '\n' && '\0' !in rest
    requires forall i :: 0 <= i < |rest| - 1 ==> rest[i] != '\n'
    ensures '\0' !in a + rest && (a + rest)[|a + rest| - 1] == '\n'
    ensures forall i :: 0 <= i < |a + rest| - 1 ==> (a + rest)[i] != '\n'
  {
    assert forall i :: 0 <= i < |a| ==> (a + rest)[i] == a[i];
    assert forall i :: |a| <= i < |a + rest| ==> (a + rest)[i] == rest[i - |a|];
  }

  /**
   * `sscanf(line, "Process: %s | PID: %d", name, &pid) == 2`: the literal
   * text must match, each blank of the format skips any white space, `%s`
   * reads a word and `%d` a number; the line parses when both conversions
   * succeed.
   */
  function ParseLine(line: seq<char>): Option<Entry> {
    var s := CString(line);
    if |s| < |Prefix| || s[..|Prefix|] != Prefix then None
    else match ScanWord(s[|Prefix|..])
      case None => None
      case Some((name, rest)) =>
        match ParsePid(rest)
        case None => None
        case Some(pid) => Some(Entry(name, pid))
  }

  /** The " | PID: %d" part of the format, applied to what follows the name. */
  function ParsePid(rest: seq<char>): Option<int> {
    var t := SkipSpace(rest);
    if t == [] || t[0] != '|' then None
    else
      var u := SkipSpace(t[1..]);
      if |u| < |PidLabel| || u[..|PidLabel|] != PidLabel then None
      else match ScanInt(u[|PidLabel|..])
        case None => None
        case Some((pid, _)) => Some(pid)
  }

  /** `strcmp(name, query) == 0` for a line that parsed. */
  predicate Registers(entry: Option<Entry>, query: seq<char>) {
    entry.Some? && entry.value.name == query
  }

  /** What `sscanf` makes of each line, in file order. */
  function ParseAll(lines: seq<seq<char>>): (ps: seq<Option<Entry>>)
    ensures |ps| == |lines|
  {
    if lines == [] then [] else [ParseLine(lines[0])] + ParseAll(lines[1..])
  }

  lemma {:induction false} ParseAllAt(lines: seq<seq<char>>, i: nat)
    requires i < |lines|
    ensures ParseAll(lines)[i] == ParseLine(lines[i])
  {
    if i > 0 {
      ParseAllAt(lines[1..], i - 1);
    }
  }

  /** The index of the first parsed line that registers `query`, if any. */
  function FirstMatch(entries: seq<Option<Entry>>, query: seq<char>): (r: Option<nat>)
    ensures r.Some? ==> r.value < |entries| && Registers(entries[r.value], query)
    ensures r.Some? ==> forall j :: 0 <= j < r.value ==> !Registers(entries[j], query)
    ensures r.None? ==> forall j :: 0 <= j < |entries| ==> !Registers(entries[j], query)
  {
    if entries == [] then None
    else if Registers(entries[0], query) then Some(0)
    else match FirstMatch(entries[1..], query)
      case None => None
      case Some(i) => Some(i + 1)
  }

  /** The pid of the first registration of `query`, or -1. */
  function PidOf(entries: seq<Option<Entry>>, query: seq<char>): int {
    match FirstMatch(entries, query)
    case Some(i) => entries[i].value.pid
    case None => -1
  }

  /** The result of `get_pid_by_name` on a file, None meaning the file cannot be opened. */
  function Lookup(file: Option<seq<char>>, query: seq<char>): int {
    if file.None? then -1 else PidOf(ParseAll(Lines(file.value, LineBuffer - 1)), query)
  }

  /** get_pid_by_name: scan the lines in order and return at the first match. */
  method PidByName(file: Option<seq<char>>, query: seq<char>) returns (pid: int)
    ensures pid == Lookup(file, query)
  {
    if file.None? {
      return -1;
    }
    var lines := Lines(file.value, LineBuffer - 1);
    ghost var parsed := ParseAll(lines);
    var i := 0;
    while i < |lines|
      invariant 0 <= i <= |lines|
      invariant forall j :: 0 <= j < i ==> !Registers(parsed[j], query)
    {
      var entry := ParseLine(lines[i]);
      ParseAllAt(lines, i);
      if entry.Some? && entry.value.name == query {
        assert FirstMatch(parsed, query) == Some(i);
        return entry.value.pid;
      }
      i := i + 1;
    }
    return -1;
  }

  /** The registry file after a sequence of registrations. */
  function Text(es: seq<Entry>): seq<char> {
    if es == [] then [] else LogLine(es[0]) + Text(es[1..])
  }

  function LogLines(es: seq<Entry>): (ls: seq<seq<char>>)
    ensures |ls| == |es| && forall i :: 0 <= i < |es| ==> ls[i] == LogLine(es[i])
  {
    if es == [] then [] else [LogLine(es[0])] + LogLines(es[1..])
  }

  predicate AllValid(es: seq<Entry>) {
    forall i :: 0 <= i < |es| ==> ValidEntry(es[i])
  }

  /** Reading the registry back line by line gives one line per registration. */
  lemma {:induction false} LinesOfText(es: seq<Entry>)
    requires AllValid(es)
    ensures Lines(Text(es), LineBuffer - 1) == LogLines(es)
  {
    if es != [] {
      var l := LogLine(es[0]);
      assert ValidEntry(es[0]);
      LogLineWhole(es[0]);
      LinesCons(l, Text(es[1..]), LineBuffer - 1);
      LinesOfText(es[1..]);
    }
  }

  /** The registration a valid line holds is exactly what was logged. */
  lemma ParseLogLine(e: Entry)
    requires ValidEntry(e)
    ensures ParseLine(LogLine(e)) == Some(e)
  {
    var tail := PidField(e.pid);
    var r1 := " " + (e.name + tail);
    LogLineWhole(e);
    CStringOfPlain(LogLine(e));
    PrefixSplit(Prefix, r1);
    ScanWordSpaced(e.name, tail);
    ParsePidField(e.pid);
  }

  /** The pid part of a registry line reads back the pid it was written from. */
  lemma ParsePidField(pid: int)
    ensures ParsePid(PidField(pid)) == Some(pid)
  {
    var r4 := " " + (FormatInt(pid) + "\n");
    var u := PidLabel + r4;
    var t := "|" + (" " + u);
    SkipOneSpace(t);
    assert t[1..] == " " + u;
    SkipOneSpace(u);
    PrefixSplit(PidLabel, r4);
    ScanIntSpaced(pid);
  }

  lemma PrefixSplit(p: seq<char>, x: seq<char>)
    ensures (p + x)[..|p|] == p && (p + x)[|p|..] == x
  {
  }

  /** `%s` after a blank reads the whole space-free word up to the next white space. */
  lemma ScanWordSpaced(w: seq<char>, rest: seq<char>)
    requires ValidName(w)
    requires rest != [] && IsSpace(rest[0])
    ensures ScanWord(" " + (w + rest)) == Some((w, rest))
  {
    assert (w + rest)[0] == w[0];
    SkipOneSpace(w + rest);
    WordRunOf(w, rest);
    assert (w + rest)[..|w|] == w && (w + rest)[|w|..] == rest;
  }

  /** `%d` after a blank reads back the number `%d` printed. */
  lemma ScanIntSpaced(pid: int)
    ensures ScanInt(" " + (FormatInt(pid) + "\n")) == Some((pid, "\n"))
  {
    var digits := FormatInt(pid) + "\n";
    assert digits[0] == FormatInt(pid)[0];
    SkipOneSpace(digits);
    assert SkipSpace(digits) == digits;
    ScanFormatInt(pid, "\n");
  }

  lemma SkipOneSpace(t: seq<char>)
    requires t != [] && !IsSpace(t[0])
    ensures SkipSpace(" " + t) == t
  {
    assert (" " + t)[1..] == t;
  }

  lemma {:induction false} WordRunOf(w: seq<char>, rest: seq<char>)
    requires forall i :: 0 <= i < |w| ==> !IsSpace(w[i])
    requires rest != [] && IsSpace(rest[0])
    ensures WordRun(w + rest) == |w|
  {
    if w != [] {
      assert (w + rest)[0] == w[0];
      assert (w + rest)[1..] == w[1..] + rest;
      WordRunOf(w[1..], rest);
    } else {
      assert w + rest == rest;
    }
  }

  /** The parsed lines of a registry written by `log_process`. */
  function Somes(es: seq<Entry>): (ps: seq<Option<Entry>>)
    ensures |ps| == |es| && forall i :: 0 <= i < |es| ==> ps[i] == Some(es[i])
  {
    if es == [] then [] else [Some(es[0])] + Somes(es[1..])
  }

  /** Each line of a registry written by `log_process` parses back to its registration. */
  lemma {:induction false} ParseText(es: seq<Entry>)
    requires AllValid(es)
    ensures ParseAll(Lines(Text(es), LineBuffer - 1)) == Somes(es)
  {
    LinesOfText(es);
    ParseLogLines(es);
  }

  lemma {:induction false} ParseLogLines(es: seq<Entry>)
    requires AllValid(es)
    ensures ParseAll(LogLines(es)) == Somes(es)
  {
    if es != [] {
      ParseLogLine(es[0]);
      assert LogLines(es)[1..] == LogLines(es[1..]);
      ParseLogLines(es[1..]);
    }
  }

  /** Registering a name makes lookup return its pid, unless the name was registered before. */
  lemma LookupRegistered(before: seq<Entry>, e: Entry, after: seq<Entry>)
    requires AllValid(before + [e] + after)
    requires forall i :: 0 <= i < |before| ==> before[i].name != e.name
    ensures Lookup(Some(Text(before + [e] + after)), e.name) == e.pid
  {
    ParseText(before + [e] + after);
    FirstRegistration(before, e, after);
  }

  /** A name nobody registered is not found. */
  lemma LookupMissing(es: seq<Entry>, query: seq<char>)
    requires AllValid(es)
    requires forall i :: 0 <= i < |es| ==> es[i].name != query
    ensures Lookup(Some(Text(es)), query) == -1
  {
    ParseText(es);
    NoRegistration(es, query);
  }

  lemma FirstRegistration(before: seq<Entry>, e: Entry, after: seq<Entry>)
    requires forall i :: 0 <= i < |before| ==> before[i].name != e.name
    ensures PidOf(Somes(before + [e] + after), e.name) == e.pid
  {
    var es := before + [e] + after;
    var ps := Somes(es);
    forall j | 0 <= j < |before|
      ensures !Registers(ps[j], e.name)
    {
      assert es[j] == before[j];
    }
    assert es[|before|] == e;
    assert FirstMatch(ps, e.name) == Some(|before|);
  }

  lemma NoRegistration(es: seq<Entry>, query: seq<char>)
    requires forall i :: 0 <= i < |es| ==> es[i].name != query
    ensures PidOf(Somes(es), query) == -1
  {
  }

  /** The registry file; `available` is false when `fopen` or `flock` fails. */
  class ProcessLog {
    var text: seq<char>

    constructor (text: seq<char>)
      ensures this.text == text
    {
      this.text := text;
    }

    /** log_process: append one registration line. */
    method LogProcess(name: seq<char>, pid: int, available: bool)
      modifies this
      ensures text == if available then old(text) + LogLine(Entry(name, pid)) else old(text)
    {
      if available {
        text := text + LogLine(Entry(name, pid));
      }
    }
  }

  /** Logging appends to the registry exactly the text of one more registration. */
  lemma {:induction false} TextSnoc(es: seq<Entry>, e: Entry)
    ensures Text(es + [e]) == Text(es) + LogLine(e)
  {
    if es == [] {
      assert [e][1..] == [];
    } else {
      assert (es + [e])[1..] == es[1..] + [e];
      TextSnoc(es[1..], e);
    }
  }

  /** The number of attempts to find the watchdog in the registry. */
  const Retries := 10

  /** The name the watchdog registers under. */
  const WatchdogName: seq<char> := "Watchdog"

  /** The first `n` attempts all failed to find the watchdog. */
  predicate Missed(registry: nat -> Option<seq<char>>, n: nat) {
    n == 0 || (Missed(registry, n - 1) && Lookup(registry(n - 1), WatchdogName) == -1)
  }

  /** `Missed` is the plain statement that every one of those lookups failed. */
  lemma {:induction false} MissedEvery(registry: nat -> Option<seq<char>>, n: nat)
    ensures Missed(registry, n) <==> forall j :: 0 <= j < n ==> Lookup(registry(j), WatchdogName) == -1
  {
    if n > 0 {
      MissedEvery(registry, n - 1);
    }
  }

  /**
   * The start-up search for the watchdog every process performs: up to ten
   * lookups of "Watchdog" in the registry, `registry(j)` being the file at
   * attempt j; -1 means the process gives up and exits with status 1.
   */
  method FindWatchdog(registry: nat -> Option<seq<char>>) returns (pid: int, tries: nat)
    ensures 1 <= tries <= Retries
    ensures Missed(registry, tries - 1)
    ensures pid == Lookup(registry(tries - 1), WatchdogName)
    ensures pid == -1 ==> tries == Retries
  {
    pid := -1;
    tries := 0;
    while pid == -1 && tries < Retries
      invariant tries <= Retries
      invariant tries == 0 ==> pid == -1
      invariant tries > 0 ==> Missed(registry, tries - 1) && pid == Lookup(registry(tries - 1), WatchdogName)
    {
      pid := PidByName(registry(tries), WatchdogName);
      tries := tries + 1;
    }
  }
}
