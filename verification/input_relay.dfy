/**
 * The keyboard relay (process_In.c).  Every key read from the terminal is
 * forwarded to the Controller's pipe, followed by a newline except for `q`;
 * the commands `q`, `a`, `p` and `u` are also forwarded, each followed by a
 * newline, to the Coordinator's FIFO.  After `q` the relay exits at once,
 * and a termination request stops it before the next read.
 */
module InputRelay {
  import opened CText

  /** What one turn of the loop finds: a termination request, no key, or a key. */
  datatype Poll = Terminate | Idle | Key(c: char)

  /** The keys the Coordinator also has to see. */
  predicate IsCommand(c: char) {
    c == 'q' || c == 'a' || c == 'p' || c == 'u'
  }

  /** What one key puts on the Controller's pipe. */
  function ToDrone(c: char): seq<char> {
    if c == 'q' then [c] else [c, '\n']
  }

  /** What one key puts on the Coordinator's FIFO. */
  function ToBoard(c: char): seq<char> {
    if IsCommand(c) then [c, '\n'] else []
  }

  /** The keys among the first `n` polls. */
  function KeysOf(polls: seq<Poll>, n: nat): (keys: seq<char>)
    requires n <= |polls|
    ensures |keys| <= n
  {
    if n == 0 then []
    else KeysOf(polls, n - 1) + (if polls[n - 1].Key? then [polls[n - 1].c] else [])
  }

  /** Everything the Controller's pipe receives from the first `n` polls. */
  function Sent(polls: seq<Poll>, n: nat): seq<char>
    requires n <= |polls|
  {
    if n == 0 then []
    else Sent(polls, n - 1) + (if polls[n - 1].Key? then ToDrone(polls[n - 1].c) else [])
  }

  /** Everything the Coordinator's FIFO receives from the first `n` polls. */
  function Posted(polls: seq<Poll>, n: nat): seq<char>
    requires n <= |polls|
  {
    if n == 0 then []
    else Posted(polls, n - 1) + (if polls[n - 1].Key? then ToBoard(polls[n - 1].c) else [])
  }

  /** Each character followed by a newline: the line protocol both readers expect. */
  function Lined(cs: seq<char>): (s: seq<char>)
    ensures |s| == 2 * |cs|
  {
    if cs == [] then [] else Lined(cs[..|cs| - 1]) + [cs[|cs| - 1], '\n']
  }

  /** Character `i` sits at position `2 i`, its newline right after it. */
  lemma {:induction false} LinedAt(cs: seq<char>, i: nat)
    requires i < |cs|
    ensures Lined(cs)[2 * i] == cs[i] && Lined(cs)[2 * i + 1] == '\n'
  {
    var front := cs[..|cs| - 1];
    if i < |cs| - 1 {
      LinedAt(front, i);
      assert front[i] == cs[i];
    }
  }

  lemma LinedSnoc(cs: seq<char>, c: char)
    ensures Lined(cs + [c]) == Lined(cs) + [c, '\n']
  {
    assert (cs + [c])[..|cs|] == cs;
  }

  /** The command keys of a run, in order. */
  function Commands(keys: seq<char>): (cs: seq<char>)
    ensures |cs| <= |keys|
    ensures forall i :: 0 <= i < |cs| ==> IsCommand(cs[i])
  {
    if keys == [] then []
    else Commands(keys[..|keys| - 1]) + (if IsCommand(keys[|keys| - 1]) then [keys[|keys| - 1]] else [])
  }

  lemma CommandsSnoc(keys: seq<char>, c: char)
    ensures Commands(keys + [c]) == Commands(keys) + if IsCommand(c) then [c] else []
  {
    assert (keys + [c])[..|keys|] == keys;
  }

  /** The Coordinator's FIFO carries exactly the command keys, in order, one per line. */
  lemma {:induction false} BoardCarriesCommands(polls: seq<Poll>, n: nat)
    requires n <= |polls|
    ensures Posted(polls, n) == Lined(Commands(KeysOf(polls, n)))
  {
    if n > 0 {
      BoardCarriesCommands(polls, n - 1);
      var keys := KeysOf(polls, n - 1);
      var before := Posted(polls, n - 1);
      if polls[n - 1].Key? {
        var c := polls[n - 1].c;
        assert KeysOf(polls, n) == keys + [c];
        CommandsSnoc(keys, c);
        if IsCommand(c) {
          LinedSnoc(Commands(keys), c);
          calc {
            Posted(polls, n);
            before + [c, '\n'];
            Lined(Commands(keys) + [c]);
            Lined(Commands(keys + [c]));
          }
        } else {
          assert Commands(keys + [c]) == Commands(keys) + [] == Commands(keys);
          assert Posted(polls, n) == before + [] == before;
        }
      } else {
        assert KeysOf(polls, n) == keys + [] == keys;
        assert Posted(polls, n) == before + [] == before;
      }
    }
  }

  /** Until `q`, the Controller's pipe carries every key, in order, one per line. */
  lemma {:induction false} DroneCarriesKeys(polls: seq<Poll>, n: nat)
    requires n <= |polls|
    requires forall j :: 0 <= j < n ==> polls[j] != Key('q')
    ensures Sent(polls, n) == Lined(KeysOf(polls, n))
  {
    if n > 0 {
      DroneCarriesKeys(polls, n - 1);
      var keys := KeysOf(polls, n - 1);
      if polls[n - 1].Key? {
        var c := polls[n - 1].c;
        assert c != 'q' by {
          assert polls[n - 1] != Key('q');
        }
        calc {
          Sent(polls, n);
          Sent(polls, n - 1) + ToDrone(c);
          Lined(keys) + [c, '\n'];
          { LinedSnoc(keys, c); }
          Lined(keys + [c]);
        }
      } else {
        assert keys + [] == keys;
      }
    }
  }

  /** The `q` that ends a run reaches the Controller without a newline after it. */
  lemma QuitUnterminated(polls: seq<Poll>, n: nat)
    requires 0 < n <= |polls| && polls[n - 1] == Key('q')
    requires forall j :: 0 <= j < n - 1 ==> polls[j] != Key('q')
    ensures Sent(polls, n) == Lined(KeysOf(polls, n - 1)) + ['q']
  {
    DroneCarriesKeys(polls, n - 1);
    assert ToDrone('q') == ['q'];
  }

  /** The Coordinator gets the `q` that ends a run on a line of its own. */
  lemma QuitPosted(polls: seq<Poll>, n: nat)
    requires 0 < n <= |polls| && polls[n - 1] == Key('q')
    ensures Posted(polls, n) == Lined(Commands(KeysOf(polls, n - 1))) + ['q', '\n']
  {
    BoardCarriesCommands(polls, n - 1);
    calc {
      Posted(polls, n);
      Posted(polls, n - 1) + ToBoard(polls[n - 1].c);
      { assert polls[n - 1].c == 'q'; }
      Posted(polls, n - 1) + ['q', '\n'];
    }
  }

  /**
   * The two output channels of the relay; `drone` is the Controller's pipe
   * and `board` the Coordinator's FIFO.
   */
  class Relay {
    var drone: seq<char>
    var board: seq<char>

    constructor ()
      ensures drone == [] && board == []
    {
      drone := [];
      board := [];
    }

    /**
     * The main loop over the polls, writing what `Pump` produces to the two
     * channels.
     */
    method Run(polls: seq<Poll>) returns (steps: nat, quit: bool)
      modifies this
      ensures steps <= |polls|
      ensures drone == old(drone) + Sent(polls, steps)
      ensures board == old(board) + Posted(polls, steps)
      ensures quit ==> 0 < steps && polls[steps - 1] == Key('q')
      ensures !quit ==> steps == |polls| || polls[steps] == Terminate
      ensures forall j :: 0 <= j < steps && !(quit && j == steps - 1) ==> polls[j] != Terminate && polls[j] != Key('q')
    {
      var sent, posted;
      steps, quit, sent, posted := Pump(polls);
      drone := drone + sent;
      board := board + posted;
    }
  }

  /**
   * The main loop over the polls.  It stops before a termination request
   * (`steps` is its index), right after a `q` (`quit`), or when the polls
   * run out; `sent` and `posted` are what it wrote to the Controller and
   * to the Coordinator.
   */
  method Pump(polls: seq<Poll>) returns (steps: nat, quit: bool, sent: seq<char>, posted: seq<char>)
    ensures steps <= |polls|
    ensures sent == Sent(polls, steps)
    ensures posted == Posted(polls, steps)
    ensures quit ==> 0 < steps && polls[steps - 1] == Key('q')
    ensures !quit ==> steps == |polls| || polls[steps] == Terminate
    ensures forall j :: 0 <= j < steps && !(quit && j == steps - 1) ==> polls[j] != Terminate && polls[j] != Key('q')
  {
    steps, quit, sent, posted := 0, false, [], [];
    while steps < |polls| && !quit && polls[steps] != Terminate
      invariant steps <= |polls| && sent == Sent(polls, steps) && posted == Posted(polls, steps)
      invariant quit ==> 0 < steps && polls[steps - 1] == Key('q')
      invariant forall j :: 0 <= j < steps && !(quit && j == steps - 1) ==> polls[j] != Terminate && polls[j] != Key('q')
    {
      var poll := polls[steps];
      steps := steps + 1;
      if poll.Key? {
        var toDrone, toBoard;
        toDrone, toBoard, quit := Route(poll.c);
        sent, posted := sent + toDrone, posted + toBoard;
      } else {
        assert sent + [] == sent && posted + [] == posted;
      }
    }
  }

  /**
   * What one key read sends: the key to the Controller, then a command also
   * to the Coordinator with a newline, then (unless it was `q`, after which
   * the relay exits) a newline to the Controller.
   */
  method Route(c: char) returns (toDrone: seq<char>, toBoard: seq<char>, quit: bool)
    ensures toDrone == ToDrone(c) && toBoard == ToBoard(c)
    ensures quit <==> c == 'q'
  {
    toDrone, toBoard, quit := [c], [], false;
    if IsCommand(c) {
      toBoard := [c, '\n'];
      if c == 'q' {
        quit := true;
        return;
      }
    }
    toDrone := toDrone + ['\n'];
  }
}
