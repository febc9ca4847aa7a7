/**
 * The read-tokenize-authorise loop of the restricted shell (rsh.c:50-136).
 *
 * The operating system is not called: what it would answer while one line
 * is handled (the value of HOME, whether chdir and posix_spawnp succeed,
 * the strerror text) comes with the line as an `Os` value. The only state
 * that survives from one line to the next is the current directory and
 * whether the loop keeps running.
 */
module Shell {
  import opened Optional
  import opened Tokenizer
  import opened Commands

  /** What the dispatcher decides for one argument vector. */
  datatype Outcome =
    | Skip                      // no tokens: prompt again
    | Exit                      // `exit`, whatever follows it
    | Help                      // `help`: print the listing
    | CdTooMany                 // `cd` with two or more arguments
    | CdHome(home: string)      // `cd` alone, HOME set
    | CdNoop                    // `cd` alone, HOME unset
    | CdTo(path: string)        // `cd path`
    | NotAllowed                // rejected, or allowlisted but not spawnable
    | Spawn(argv: seq<string>)  // run argv[0] with argv
  {
    predicate IsBuiltinOutcome() {
      Exit? || Help? || CdTooMany? || CdHome? || CdNoop? || CdTo?
    }
  }

  /** The operating system's answers while one line is handled. */
  datatype Os = Os(home: Option<string>, chdirOk: bool, chdirError: string, spawnOk: bool)

  /** One line returned by fgets, with the answers the system gives for it. */
  datatype Turn = Turn(line: string, os: Os)

  /** The interpreter state kept across lines. */
  datatype State = State(cwd: string, running: bool)

  /** What the user sees: a line on standard output, or a child being run. */
  datatype Event =
    | Say(text: string)
    | Spawned(argv: seq<string>, cwd: string)

  const NotAllowedMessage := "NOT ALLOWED!"
  const TooManyArgsMessage := "-rsh: cd: too many arguments"

  function CdErrorMessage(path: string, reason: string): string {
    "-rsh: cd: " + path + ": " + reason
  }

  function SayAll(lines: seq<string>): (events: seq<Event>)
    ensures |events| == |lines|
    ensures forall i :: 0 <= i < |lines| ==> events[i] == Say(lines[i])
  {
    seq(|lines|, i requires 0 <= i < |lines| => Say(lines[i]))
  }

  /**
   * The dispatch of main: `exit`, `help` and `cd` are compared first, then
   * the allowlist; a spawn that fails is reported like a rejection.
   */
  function Dispatch(argv: seq<string>, home: Option<string>, spawnOk: bool): (o: Outcome)
    ensures argv == [] <==> o == Skip
    ensures argv != [] && argv[0] == "exit" ==> o == Exit
    ensures o.IsBuiltinOutcome() <==> argv != [] && IsBuiltin(argv[0])
    ensures o == NotAllowed <==>
      argv != [] && !IsBuiltin(argv[0]) && !(IsAllowedProgram(argv[0]) && spawnOk)
    ensures o.Spawn? <==> argv != [] && IsAllowedProgram(argv[0]) && spawnOk
    ensures o.Spawn? ==> o.argv == argv
    ensures argv != [] && argv[0] == "help" ==> o == Help
    ensures argv != [] && argv[0] == "cd" && |argv| > 2 ==> o == CdTooMany
    ensures argv != [] && argv[0] == "cd" && |argv| == 2 ==> o == CdTo(argv[1])
    ensures argv != [] && argv[0] == "cd" && |argv| == 1 ==>
      o == if home.Some? then CdHome(home.value) else CdNoop
  {
    if |argv| == 0 then Skip
    else if argv[0] == "exit" then Exit
    else if argv[0] == "help" then Help
    else if argv[0] == "cd" then
      if |argv| > 2 then CdTooMany
      else if |argv| == 1 then
        match home
        case Some(h) => CdHome(h)
        case None => CdNoop
      else CdTo(argv[1])
    else if !IsAllowedProgram(argv[0]) then NotAllowed
    else if !spawnOk then NotAllowed
    else Spawn(argv)
  }

  /** The directory a `cd` line hands to chdir, if it calls chdir at all. */
  function CdTarget(argv: seq<string>, home: Option<string>): (target: Option<string>)
    ensures target.Some? ==> argv != [] && argv[0] == "cd" && 1 <= |argv| <= 2
    ensures target.Some? && |argv| == 2 ==> target.value == argv[1]
    ensures target.Some? && |argv| == 1 ==> home == target
    ensures argv != [] && argv[0] == "cd" && |argv| == 2 ==> target == Some(argv[1])
    ensures argv != [] && argv[0] == "cd" && |argv| == 1 ==> target == home
  {
    if argv != [] && argv[0] == "cd" && |argv| == 2 then Some(argv[1])
    else if argv != [] && argv[0] == "cd" && |argv| == 1 then home
    else None
  }

  /** chdir(path), then the error line when it fails. */
  function ChangeDir(st: State, path: string, os: Os): (r: (State, seq<Event>))
    ensures r.0.running == st.running
    ensures r.0.cwd == (if os.chdirOk then path else st.cwd)
    ensures os.chdirOk <==> r.1 == []
    ensures !os.chdirOk ==> r.1 == [Say(CdErrorMessage(path, os.chdirError))]
  {
    if os.chdirOk then (st.(cwd := path), [])
    else (st, [Say(CdErrorMessage(path, os.chdirError))])
  }

  /**
   * Carry out an outcome: only Exit stops the loop, only a cd outcome moves
   * the directory, and only Spawn runs a child.
   */
  function Perform(st: State, o: Outcome, os: Os): (r: (State, seq<Event>))
    ensures r.0.running == (st.running && !o.Exit?)
    ensures r.0.cwd != st.cwd ==> (o.CdHome? || o.CdTo?) && os.chdirOk
    ensures forall e :: e in r.1 && e.Spawned? ==> o == Spawn(e.argv) && e.cwd == st.cwd
    ensures o.Spawn? ==> r.1 == [Spawned(o.argv, st.cwd)]
  {
    match o
    case Skip => (st, [])
    case Exit => (st.(running := false), [])
    case Help => (st, SayAll(HelpText()))
    case CdTooMany => (st, [Say(TooManyArgsMessage)])
    case CdHome(h) => ChangeDir(st, h, os)
    case CdNoop => (st, [])
    case CdTo(p) => ChangeDir(st, p, os)
    case NotAllowed => (st, [Say(NotAllowedMessage)])
    case Spawn(argv) => (st, [Spawned(argv, st.cwd)])
  }

  /** One iteration of the loop in main, from the line fgets returned. */
  function Step(st: State, turn: Turn): (r: (State, seq<Event>))
    requires st.running
    ensures var argv := Tokenize(turn.line);
      r.0.running <==> !(argv != [] && argv[0] == "exit")
    ensures var target := CdTarget(Tokenize(turn.line), turn.os.home);
      r.0.cwd == if target.Some? && turn.os.chdirOk then target.value else st.cwd
    ensures forall e :: e in r.1 && e.Spawned? ==>
      && e.argv == Tokenize(turn.line) && e.argv != []
      && IsAllowedProgram(e.argv[0]) && turn.os.spawnOk
      && e.cwd == st.cwd
    ensures Tokenize(turn.line) == [] ==> r == (st, [])
  {
    var argv := Tokenize(turn.line);
    Perform(st, Dispatch(argv, turn.os.home, turn.os.spawnOk), turn.os)
  }

  /**
   * The session: lines are handled one after the other until `exit` stops
   * the loop or the input ends.
   */
  function Run(st: State, input: seq<Turn>): (r: (State, seq<Event>))
    ensures !st.running ==> r == (st, [])
    ensures r.0.running ==> st.running
    ensures input == [] ==> r == (st, [])
    decreases |input|
  {
    if input == [] || !st.running then (st, [])
    else
      var (st1, events) := Step(st, input[0]);
      var (st2, rest) := Run(st1, input[1..]);
      (st2, events + rest)
  }

  /**
   * The body of the loop in main for one line: tokenize it, then dispatch
   * on the first token. `stop` is set where main returns.
   */
  method HandleLine(cwd: string, turn: Turn) returns (cwd': string, stop: bool, said: seq<Event>)
    ensures Step(State(cwd, true), turn) == (State(cwd', !stop), said)
  {
    var argv, argc := TokenizeLine(turn.line);
    cwd', stop, said := cwd, false, [];
    if argc == 0 {
      return;
    }
    var cmd := argv[0];
    if cmd == "exit" {
      stop := true;
    } else if cmd == "help" {
      said := SayAll(HelpText());
    } else if cmd == "cd" {
      if argc > 2 {
        said := [Say(TooManyArgsMessage)];
      } else if argc == 1 {
        match turn.os.home {
          case Some(h) =>
            if turn.os.chdirOk {
              cwd' := h;
            } else {
              said := [Say(CdErrorMessage(h, turn.os.chdirError))];
            }
          case None =>
        }
      } else {
        if turn.os.chdirOk {
          cwd' := argv[1];
        } else {
          said := [Say(CdErrorMessage(argv[1], turn.os.chdirError))];
        }
      }
    } else if !IsAllowedProgram(cmd) {
      said := [Say(NotAllowedMessage)];
    } else if !turn.os.spawnOk {
      said := [Say(NotAllowedMessage)];
    } else {
      said := [Spawned(argv[..argc], cwd)];
    }
  }

  /**
   * main: the loop reads a line and handles it; `exit` returns at once, the
   * end of the input ends the loop, and the exit status is 0 either way.
   */
  method Session(startDir: string, input: seq<Turn>)
    returns (cwd: string, exited: bool, transcript: seq<Event>, status: int)
    ensures status == 0
    ensures Run(State(startDir, true), input) == (State(cwd, !exited), transcript)
  {
    cwd, exited, transcript, status := startDir, false, [], 0;
    var i := 0;
    assert input[i..] == input;
    assert transcript + Run(State(cwd, true), input).1 == Run(State(cwd, true), input).1;
    while i < |input|
      invariant 0 <= i <= |input|
      invariant Run(State(startDir, true), input).0 == Run(State(cwd, true), input[i..]).0
      invariant Run(State(startDir, true), input).1 == transcript + Run(State(cwd, true), input[i..]).1
    {
      var turn := input[i];
      assert input[i..][1..] == input[i + 1..];
      var cwd', stop, said := HandleLine(cwd, turn);
      i := i + 1;
      assert Run(State(cwd, true), input[i - 1..]) == (Run(State(cwd', !stop), input[i..]).0, said + Run(State(cwd', !stop), input[i..]).1);
      if stop {
        assert transcript + said == transcript;
        exited := true;
        return;
      }
      transcript, cwd := transcript + said, cwd';
    }
    assert input[i..] == [];
    assert transcript + [] == transcript;
  }
}
