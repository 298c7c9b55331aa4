/**
 * The watchdog (watchdog.c).  It keeps a table of at most 50 monitored
 * processes, rebuilt from the registry file on every cycle, pings each
 * active process and marks it dead when it no longer exists or does not
 * answer in time.  It stops when a termination was requested or when a
 * cycle finds no process alive.
 */
module Watchdog {
  import opened CText
  import Registry

  /** `MAX_PROCESSES`: capacity of the process table. */
  const MaxProcesses := 50

  /** Seconds slept between cycles and waited for an answer (`CHECK_INTERVAL`, `RESPONSE_TIMEOUT`). */
  const CheckInterval := 10
  const ResponseTimeout := 10

  /** The name whose registrations are never monitored. */
  const Master: seq<char> := "Master"

  /** One row of the process table. */
  datatype ProcessInfo = ProcessInfo(pid: int, name: seq<char>, active: bool)

  /** A parsed registry line is monitored unless it is the watchdog itself or the master. */
  predicate Admitted(entry: Option<Registry.Entry>, me: int) {
    entry.Some? && entry.value.pid != me && entry.value.name != Master
  }

  /** The row a monitored registration becomes: active from the start. */
  function Row(e: Registry.Entry): (p: ProcessInfo)
    ensures p.pid == e.pid && p.name == e.name && p.active
  {
    ProcessInfo(e.pid, e.name, true)
  }

  /** Every monitored registration, in file order, without a bound. */
  function Admit(entries: seq<Option<Registry.Entry>>, me: int): (rows: seq<ProcessInfo>)
    ensures |rows| <= |entries|
  {
    if entries == [] then []
    else (if Admitted(entries[0], me) then [Row(entries[0].value)] else []) + Admit(entries[1..], me)
  }

  /**
   * The table the line loop of load_processes builds from the parsed lines
   * when `room` rows are still free: lines are taken in order and the loop
   * stops once the table is full.
   */
  function Load(entries: seq<Option<Registry.Entry>>, me: int, room: nat): (rows: seq<ProcessInfo>)
    ensures |rows| <= room
  {
    if entries == [] || room == 0 then []
    else if Admitted(entries[0], me) then [Row(entries[0].value)] + Load(entries[1..], me, room - 1)
    else Load(entries[1..], me, room)
  }

  /**
   * Every loaded row is active, even when the same process was marked dead
   * before the reload, and none is the watchdog itself or the master.
   */
  lemma {:induction false} LoadRows(entries: seq<Option<Registry.Entry>>, me: int, room: nat)
    ensures forall j :: 0 <= j < |Load(entries, me, room)| ==>
      var p := Load(entries, me, room)[j]; p.active && p.pid != me && p.name != Master
  {
    if entries != [] && room > 0 {
      LoadRows(entries[1..], me, if Admitted(entries[0], me) then room - 1 else room);
    }
  }

  function Take<T>(s: seq<T>, n: nat): seq<T> {
    if |s| <= n then s else s[..n]
  }

  /** The capped table is the first `room` monitored registrations. */
  lemma {:induction false} LoadTakes(entries: seq<Option<Registry.Entry>>, me: int, room: nat)
    ensures Load(entries, me, room) == Take(Admit(entries, me), room)
  {
    if entries != [] && room > 0 {
      LoadTakes(entries[1..], me, if Admitted(entries[0], me) then room - 1 else room);
    }
  }

  /** A registry written by log_process loads as its monitored registrations, at most 50 of them. */
  lemma LoadRegistry(es: seq<Registry.Entry>, me: int)
    requires Registry.AllValid(es)
    ensures Load(Registry.ParseAll(Lines(Registry.Text(es), LineBuffer - 1)), me, MaxProcesses)
         == Take(Admit(Registry.Somes(es), me), MaxProcesses)
  {
    Registry.ParseText(es);
    LoadTakes(Registry.Somes(es), me, MaxProcesses);
  }

  /** What the environment does when a process is checked (`kill(pid, 0)`, then SIGUSR2 or SIGALRM). */
  datatype Health = Gone | Responds | Silent

  /** A row after check_process: only an answer to the ping keeps it active. */
  function After(p: ProcessInfo, h: Health): (q: ProcessInfo)
    ensures q.pid == p.pid && q.name == p.name
    ensures q.active <==> p.active && h == Responds
  {
    if p.active && h != Responds then p.(active := false) else p
  }

  /** The table after one pass of health checks, row i seeing `health(i)`. */
  function Checks(t: seq<ProcessInfo>, health: nat -> Health): (u: seq<ProcessInfo>)
    ensures |u| == |t|
  {
    seq(|t|, j requires 0 <= j < |t| => After(t[j], health(j)))
  }

  /** The number of active rows. */
  function ActiveCount(t: seq<ProcessInfo>): (n: nat)
    ensures n <= |t|
  {
    if t == [] then 0 else ActiveCount(t[..|t| - 1]) + (if t[|t| - 1].active then 1 else 0)
  }

  /** No process counts as alive exactly when every row is inactive. */
  lemma {:induction false} NoneAlive(t: seq<ProcessInfo>)
    ensures ActiveCount(t) == 0 <==> forall j :: 0 <= j < |t| ==> !t[j].active
  {
    if t != [] {
      var init := t[..|t| - 1];
      NoneAlive(init);
      assert forall j :: 0 <= j < |init| ==> init[j] == t[j];
    }
  }

  /** After a pass, a row is alive exactly when it was active and answered its ping. */
  lemma AliveAfterChecks(t: seq<ProcessInfo>, health: nat -> Health)
    ensures ActiveCount(Checks(t, health)) == 0
        <==> forall j :: 0 <= j < |t| ==> !(t[j].active && health(j) == Responds)
  {
    var u := Checks(t, health);
    NoneAlive(u);
    assert forall j :: 0 <= j < |t| ==> u[j] == After(t[j], health(j));
  }

  /** What check_process did besides updating the row. */
  datatype Action = Vanished | Pinged | Killed

  /** How the main loop ended. */
  datatype Stop = Terminated | AllDead | OutOfRounds

  /** One round of the main loop as the environment presents it. */
  datatype Round = Round(terminate: bool, file: Option<seq<char>>, health: nat -> Health)

  /** The parsed lines of a registry file, one per `fgets` call. */
  function Entries(text: seq<char>): seq<Option<Registry.Entry>> {
    Registry.ParseAll(Lines(text, LineBuffer - 1))
  }

  /** The table after load_processes: rebuilt from the file, or kept when it cannot be read. */
  function Reloaded(t: seq<ProcessInfo>, file: Option<seq<char>>, me: int): seq<ProcessInfo> {
    if file.None? then t else Load(Entries(file.value), me, MaxProcesses)
  }

  /** The table after one cycle of the main loop: reload, then check every row. */
  function AfterRound(t: seq<ProcessInfo>, r: Round, me: int): seq<ProcessInfo> {
    Checks(Reloaded(t, r.file, me), r.health)
  }

  /** The table after the first `n` cycles, starting from `t`. */
  function AfterRounds(t: seq<ProcessInfo>, rounds: seq<Round>, n: nat, me: int): seq<ProcessInfo>
    requires n <= |rounds|
  {
    if n == 0 then t else AfterRound(AfterRounds(t, rounds, n - 1, me), rounds[n - 1], me)
  }

  /**
   * `tables` is the run of the main loop over the first |tables| - 1 rounds:
   * none asked to terminate and each table is the one after the round before it.
   */
  ghost predicate Run(tables: seq<seq<ProcessInfo>>, rounds: seq<Round>, me: int) {
    0 < |tables| <= |rounds| + 1 &&
    forall j :: 0 <= j < |tables| - 1 ==> !rounds[j].terminate && tables[j + 1] == AfterRound(tables[j], rounds[j], me)
  }

  /** Every cycle of a run but the last left some process alive. */
  ghost predicate Survived(tables: seq<seq<ProcessInfo>>) {
    forall j :: 0 < j < |tables| - 1 ==> ActiveCount(tables[j]) > 0
  }

  /** A run extended by one more cycle. */
  lemma RunStep(tables: seq<seq<ProcessInfo>>, rounds: seq<Round>, me: int, t: seq<ProcessInfo>)
    requires Run(tables, rounds, me) && Survived(tables)
    requires |tables| <= |rounds| && !rounds[|tables| - 1].terminate
    requires t == AfterRound(tables[|tables| - 1], rounds[|tables| - 1], me)
    requires |tables| == 1 || ActiveCount(tables[|tables| - 1]) > 0
    ensures Run(tables + [t], rounds, me) && Survived(tables + [t])
  {
  }

  /** Table k of a run is the table after the first k rounds. */
  lemma {:induction false} RunAfterRounds(tables: seq<seq<ProcessInfo>>, rounds: seq<Round>, me: int, k: nat)
    requires Run(tables, rounds, me) && k < |tables|
    ensures k <= |rounds| && tables[k] == AfterRounds(tables[0], rounds, k, me)
  {
    if k > 0 {
      RunAfterRounds(tables, rounds, me, k - 1);
    }
  }

  /** The watchdog's process table; `me` is its own pid. */
  class Monitor {
    const processes: array<ProcessInfo>
    var count: nat
    const me: int

    ghost predicate Valid()
      reads this
    {
      processes.Length == MaxProcesses && count <= MaxProcesses
    }

    /** The rows in use. */
    function Table(): seq<ProcessInfo>
      reads this, processes
      requires Valid()
    {
      processes[..count]
    }

    constructor (me: int)
      ensures Valid() && this.me == me && Table() == []
      ensures fresh(processes)
    {
      this.me := me;
      processes := new ProcessInfo[MaxProcesses](_ => ProcessInfo(0, [], false));
      count := 0;
    }

    /**
     * load_processes.  `file` is None when the registry cannot be opened or
     * locked; then nothing changes and 0 is returned.  Otherwise the table is
     * rebuilt from scratch and its size returned.
     */
    method LoadProcesses(file: Option<seq<char>>) returns (n: nat)
      requires Valid()
      modifies this, processes
      ensures Valid()
      ensures file.None? ==> n == 0 && count == old(count) && processes[..] == old(processes[..])
      ensures file.Some? ==> Table() == Load(Entries(file.value), me, MaxProcesses) && n == count
    {
      if file.None? {
        return 0;
      }
      count := Fill(processes, Lines(file.value, LineBuffer - 1), me);
      n := count;
    }

    /** One cycle's health checks over the table (the `for` loop of main). */
    method CheckAll(health: nat -> Health) returns (alive: nat)
      requires Valid()
      modifies processes
      ensures Valid()
      ensures Table() == Checks(old(Table()), health)
      ensures alive == ActiveCount(Table())
    {
      alive := CheckRows(processes, count, health);
    }

    /** One cycle of the main loop after the termination test: reload, then check. */
    method Cycle(round: Round) returns (alive: nat)
      requires Valid()
      modifies this, processes
      ensures Valid()
      ensures Table() == AfterRound(old(Table()), round, me)
      ensures alive == ActiveCount(Table())
    {
      ghost var before := Table();
      var _ := LoadProcesses(round.file);
      assert Table() == Reloaded(before, round.file, me);
      alive := CheckAll(round.health);
    }

    /** The start-up loop: load the registry until it yields a process to monitor. */
    method AwaitProcesses(files: seq<Option<seq<char>>>) returns (tries: nat)
      requires Valid()
      modifies this, processes
      ensures Valid()
      ensures tries <= |files|
      ensures forall j :: 0 <= j < tries ==> files[j].None? || Load(Entries(files[j].value), me, MaxProcesses) == []
      ensures tries < |files| ==> files[tries].Some? && Table() == Load(Entries(files[tries].value), me, MaxProcesses)
                                  && Table() != []
    {
      tries := 0;
      while tries < |files|
        invariant Valid() && tries <= |files|
        invariant forall j :: 0 <= j < tries ==> files[j].None? || Load(Entries(files[j].value), me, MaxProcesses) == []
      {
        var n := LoadProcesses(files[tries]);
        if n != 0 {
          return;
        }
        tries := tries + 1;
      }
    }

    /**
     * The main loop.  Round j first honours a termination request, then
     * reloads the table from `rounds[j].file` and checks every active row;
     * a cycle that finds nobody alive ends the loop.  `tables` holds the
     * table before the loop and after each cycle it ran.
     */
    method Watch(rounds: seq<Round>) returns (cycles: nat, stop: Stop, ghost tables: seq<seq<ProcessInfo>>)
      requires Valid()
      modifies this, processes
      ensures Valid()
      ensures |tables| == cycles + 1 && tables[0] == old(Table()) && Table() == tables[cycles]
      ensures Run(tables, rounds, me) && Survived(tables)
      ensures stop == AllDead <==> 0 < cycles && ActiveCount(Table()) == 0
      ensures stop == Terminated ==> cycles < |rounds| && rounds[cycles].terminate
      ensures stop == OutOfRounds ==> cycles == |rounds|
      ensures stop == AllDead ==> forall j :: 0 <= j < |Table()| ==> !Table()[j].active
    {
      cycles, stop, tables := 0, OutOfRounds, [Table()];
      while stop == OutOfRounds && cycles < |rounds|
        invariant Valid() && |tables| == cycles + 1 && tables[0] == old(Table()) && Table() == tables[cycles]
        invariant Run(tables, rounds, me) && Survived(tables)
        invariant stop != AllDead ==> cycles == 0 || ActiveCount(Table()) > 0
        invariant stop == AllDead ==> 0 < cycles && ActiveCount(Table()) == 0
        invariant stop == Terminated ==> cycles < |rounds| && rounds[cycles].terminate
        decreases |rounds| - cycles, if stop == OutOfRounds then 1 else 0
      {
        if rounds[cycles].terminate {
          stop := Terminated;
        } else {
          var alive := Cycle(rounds[cycles]);
          RunStep(tables, rounds, me, Table());
          tables := tables + [Table()];
          cycles := cycles + 1;
          if alive == 0 {
            stop := AllDead;
          }
        }
      }
      NoneAlive(Table());
    }

  }

  /**
   * check_process on row i: a process that no longer exists is marked dead
   * without a ping; otherwise it is pinged and killed and marked dead when
   * it does not answer in time.
   */
  method CheckProcess(processes: array<ProcessInfo>, i: nat, health: Health) returns (action: Action)
    requires i < processes.Length
    modifies processes
    ensures action == match health case Gone => Vanished case Responds => Pinged case Silent => Killed
    ensures processes[..] == old(processes[..])[i := After(old(processes[i]), health)]
  {
    if health == Gone {
      processes[i] := processes[i].(active := false);
      return Vanished;
    }
    if health == Responds {
      action := Pinged;
    } else {
      processes[i] := processes[i].(active := false);
      action := Killed;
    }
  }

  /**
   * The `for` loop of one cycle over the first `count` rows: every active
   * row is checked and counted when it is still active afterwards.
   */
  method CheckRows(processes: array<ProcessInfo>, count: nat, health: nat -> Health) returns (alive: nat)
    requires count <= processes.Length
    modifies processes
    ensures processes[..count] == Checks(old(processes[..count]), health)
    ensures processes[count..] == old(processes[count..])
    ensures alive == ActiveCount(processes[..count])
  {
    ghost var a := processes[..];
    ghost var done: seq<ProcessInfo> := [];
    alive := 0;
    for i := 0 to count
      invariant processes[..] == done + a[i..]
      invariant done == Checks(a[..i], health) && alive == ActiveCount(done)
    {
      ghost var row := After(a[i], health(i));
      CheckStep(a, i, health, done);
      if processes[i].active {
        var _ := CheckProcess(processes, i, health(i));
        if processes[i].active {
          alive := alive + 1;
        }
      }
      done := done + [row];
      assert processes[..] == done + a[i + 1..];
    }
    assert processes[..count] == done && processes[count..] == a[count..];
    assert a[..count] == old(processes[..count]);
  }

  /**
   * The line loop of load_processes: rows are written from index 0 on, one
   * per monitored line, until the lines run out or the table is full.
   */
  method Fill(processes: array<ProcessInfo>, lines: seq<seq<char>>, me: int) returns (count: nat)
    requires processes.Length == MaxProcesses
    modifies processes
    ensures count <= MaxProcesses && processes[..count] == Load(Registry.ParseAll(lines), me, MaxProcesses)
  {
    ghost var entries := Registry.ParseAll(lines);
    ghost var whole := Load(entries, me, MaxProcesses);
    count := 0;
    var i := 0;
    while i < |lines| && count < MaxProcesses
      invariant 0 <= i <= |lines| && count <= MaxProcesses
      invariant processes[..count] + Load(entries[i..], me, MaxProcesses - count) == whole
    {
      ghost var before := processes[..count];
      count := AddLine(processes, count, lines, i, me);
      LoadStep(entries, i, me, before, processes[..count], whole, MaxProcesses);
      i := i + 1;
    }
    if i == |lines| {
      assert entries[i..] == [];
    }
  }

  /** One pass of the line loop: the line is parsed and, when monitored, becomes row `count`. */
  method AddLine(processes: array<ProcessInfo>, count: nat, lines: seq<seq<char>>, i: nat, me: int) returns (next: nat)
    requires count < processes.Length && i < |lines|
    modifies processes
    ensures count <= next <= count + 1
    ensures var entry := Registry.ParseAll(lines)[i];
      processes[..next] == old(processes[..count]) + if Admitted(entry, me) then [Row(entry.value)] else []
  {
    var entry := Registry.ParseLine(lines[i]);
    Registry.ParseAllAt(lines, i);
    next := count;
    if entry.Some? {
      if entry.value.pid == me || entry.value.name == Master {
        return;
      }
      processes[count] := Row(entry.value);
      next := count + 1;
      assert processes[..next] == old(processes[..count]) + [Row(entry.value)];
    }
  }

  /** One line of the load loop, as the loop invariant needs it: `whole` is the table being built. */
  lemma LoadStep(entries: seq<Option<Registry.Entry>>, i: nat, me: int, before: seq<ProcessInfo>, after: seq<ProcessInfo>,
                 whole: seq<ProcessInfo>, cap: nat)
    requires i < |entries| && |before| < cap
    requires before + Load(entries[i..], me, cap - |before|) == whole
    requires after == if Admitted(entries[i], me) then before + [Row(entries[i].value)] else before
    ensures after + Load(entries[i + 1..], me, cap - |after|) == whole
  {
    LoadUnfold(entries, i, me, cap - |before|);
    if Admitted(entries[i], me) {
      var tail := Load(entries[i + 1..], me, cap - |after|);
      assert after + tail == before + ([Row(entries[i].value)] + tail);
    }
  }

  lemma LoadUnfold(entries: seq<Option<Registry.Entry>>, i: nat, me: int, room: nat)
    requires i < |entries| && room > 0
    ensures Load(entries[i..], me, room)
         == if Admitted(entries[i], me) then [Row(entries[i].value)] + Load(entries[i + 1..], me, room - 1)
            else Load(entries[i + 1..], me, room)
  {
    assert entries[i..][1..] == entries[i + 1..];
  }

  /** One row of the check loop, as the loop invariant needs it. */
  lemma CheckStep(a: seq<ProcessInfo>, i: nat, health: nat -> Health, done: seq<ProcessInfo>)
    requires i < |a| && done == Checks(a[..i], health)
    ensures (done + a[i..])[i] == a[i]
    ensures (done + a[i..])[i := After(a[i], health(i))] == (done + [After(a[i], health(i))]) + a[i + 1..]
    ensures done + [After(a[i], health(i))] == Checks(a[..i + 1], health)
    ensures ActiveCount(done + [After(a[i], health(i))])
         == ActiveCount(done) + (if After(a[i], health(i)).active then 1 else 0)
  {
    var u := done + [After(a[i], health(i))];
    assert u[..i] == done;
  }
}
