/**
 * What the restricted shell promises over single lines and over whole
 * sessions, stated about the `Step` and `Run` functions of module Shell.
 */
module ShellProperties {
  import opened Optional
  import opened Tokenizer
  import opened Commands
  import opened Shell

  // ---------------------------------------------------------------------
  // One line

  /** `exit` as the first token ends the session at once, whatever follows. */
  lemma ExitEndsSession(st: State, turn: Turn, rest: seq<Turn>)
    requires st.running
    requires Tokenize(turn.line) != [] && Tokenize(turn.line)[0] == "exit"
    ensures Run(st, [turn] + rest) == (st.(running := false), [])
  {
    assert ([turn] + rest)[1..] == rest;
    var stopped := st.(running := false);
    assert Step(st, turn) == (stopped, []);
    assert Run(stopped, rest) == (stopped, []);
    var none: seq<Event> := [];
    assert none + none == none;
  }

  /** `help` prints the fixed listing and changes nothing, in any state. */
  lemma HelpChangesNothing(st: State, turn: Turn)
    requires st.running
    requires Tokenize(turn.line) != [] && Tokenize(turn.line)[0] == "help"
    ensures Step(st, turn) == (st, SayAll(HelpText()))
  {
  }

  /**
   * `cd` never ends the loop; with two or more arguments it only complains;
   * alone it goes to HOME, or does nothing when HOME is unset; with one
   * argument it goes to exactly that path; a failing chdir leaves the
   * directory as it was and reports the path.
   */
  lemma CdCases(st: State, turn: Turn)
    requires st.running
    requires Tokenize(turn.line) != [] && Tokenize(turn.line)[0] == "cd"
    ensures Step(st, turn).0.running
    ensures var argv := Tokenize(turn.line);
      |argv| > 2 ==> Step(st, turn) == (st, [Say(TooManyArgsMessage)])
    ensures var argv := Tokenize(turn.line);
      |argv| == 1 && turn.os.home.None? ==> Step(st, turn) == (st, [])
    ensures var argv := Tokenize(turn.line);
      |argv| == 1 && turn.os.home.Some? && turn.os.chdirOk ==>
        Step(st, turn) == (st.(cwd := turn.os.home.value), [])
    ensures var argv := Tokenize(turn.line);
      |argv| == 2 && turn.os.chdirOk ==> Step(st, turn) == (st.(cwd := argv[1]), [])
    ensures var target := CdTarget(Tokenize(turn.line), turn.os.home);
      target.Some? && !turn.os.chdirOk ==>
        Step(st, turn) == (st, [Say(CdErrorMessage(target.value, turn.os.chdirError))])
  {
  }

  /**
   * A name that is neither builtin nor allowlisted, and an allowlisted
   * program that cannot be spawned, look the same to the user.
   */
  lemma RejectionLooksLikeSpawnFailure(st: State, rejected: Turn, failed: Turn)
    requires st.running
    requires var argv := Tokenize(rejected.line);
      argv != [] && !IsBuiltin(argv[0]) && !IsAllowedProgram(argv[0])
    requires var argv := Tokenize(failed.line);
      argv != [] && IsAllowedProgram(argv[0]) && !failed.os.spawnOk
    ensures Step(st, rejected) == (st, [Say(NotAllowedMessage)])
    ensures Step(st, failed) == (st, [Say(NotAllowedMessage)])
  {
  }

  /** A spawn runs the allowlisted name with the whole token sequence. */
  lemma SpawnRunsAllTokens(st: State, turn: Turn)
    requires st.running
    requires var argv := Tokenize(turn.line);
      argv != [] && IsAllowedProgram(argv[0]) && turn.os.spawnOk
    ensures Step(st, turn) == (st, [Spawned(Tokenize(turn.line), st.cwd)])
  {
    BuiltinsNotAllowlisted(Tokenize(turn.line)[0]);
  }

  // ---------------------------------------------------------------------
  // Whole sessions

  /** Once the loop has stopped, no later line is read. */
  lemma {:induction false} NothingAfterExit(st: State, pre: seq<Turn>, post: seq<Turn>)
    requires !Run(st, pre).0.running
    ensures Run(st, pre + post) == Run(st, pre)
    decreases |pre|
  {
    if pre == [] {
      assert pre + post == post;
    } else if st.running {
      assert (pre + post)[0] == pre[0];
      assert (pre + post)[1..] == pre[1..] + post;
      NothingAfterExit(Step(st, pre[0]).0, pre[1..], post);
    }
  }

  /** Empty and all-delimiter lines produce no output and change nothing. */
  lemma {:induction false} BlankLinesAreIgnored(st: State, input: seq<Turn>)
    requires forall k :: 0 <= k < |input| ==> AllDelims(input[k].line)
    ensures Run(st, input) == (st, [])
    decreases |input|
  {
    if input != [] && st.running {
      BlankLineHasNoTokens(input[0].line);
      assert Step(st, input[0]) == (st, []);
      assert forall k :: 0 <= k < |input| - 1 ==> input[1..][k] == input[k + 1];
      BlankLinesAreIgnored(st, input[1..]);
      var none: seq<Event> := [];
      assert none + none == none;
    }
  }

  /** Line k is read: the loop is still running after the lines before it. */
  predicate Reads(st: State, input: seq<Turn>, k: nat)
    requires k < |input|
  {
    Run(st, input[..k]).0.running
  }

  /** A line read by the session from `st` is a line read one step later, shifted by one. */
  lemma ReadsShift(st: State, input: seq<Turn>, k: nat)
    requires st.running && 0 < k < |input|
    ensures Reads(st, input, k) == Reads(Step(st, input[0]).0, input[1..], k - 1)
  {
    assert input[..k][0] == input[0];
    assert input[..k][1..] == input[1..][..k - 1];
  }

  /**
   * Every child the session runs is an allowlisted name, run with the full
   * token sequence of one of the input lines the loop actually reads.
   */
  lemma {:induction false} SpawnsOnlyAllowlisted(st: State, input: seq<Turn>)
    ensures forall e :: e in Run(st, input).1 && e.Spawned? ==>
      && e.argv != [] && IsAllowedProgram(e.argv[0])
      && exists k :: 0 <= k < |input| && Reads(st, input, k) && e.argv == Tokenize(input[k].line)
    decreases |input|
  {
    if input != [] && st.running {
      var (st1, events) := Step(st, input[0]);
      SpawnsOnlyAllowlisted(st1, input[1..]);
      forall e | e in Run(st, input).1 && e.Spawned?
        ensures exists k :: 0 <= k < |input| && Reads(st, input, k) && e.argv == Tokenize(input[k].line)
      {
        if e in events {
          assert input[..0] == [];
          assert Reads(st, input, 0) && e.argv == Tokenize(input[0].line);
        } else {
          assert e in Run(st1, input[1..]).1;
          var k :| 0 <= k < |input| - 1 && Reads(st1, input[1..], k)
            && e.argv == Tokenize(input[1..][k].line);
          assert input[1..][k] == input[k + 1];
          ReadsShift(st, input, k + 1);
          assert Reads(st, input, k + 1);
        }
      }
    }
  }

  /**
   * The directory at the end of a session is the one it started in, or the
   * target of a `cd` line, read by the loop, whose chdir succeeded.
   */
  lemma {:induction false} DirectoryChangesOnlyByCd(st: State, input: seq<Turn>)
    ensures var cwd := Run(st, input).0.cwd;
      || cwd == st.cwd
      || exists k :: 0 <= k < |input| && Reads(st, input, k) && input[k].os.chdirOk
           && CdTarget(Tokenize(input[k].line), input[k].os.home) == Some(cwd)
    decreases |input|
  {
    if input != [] && st.running {
      var st1 := Step(st, input[0]).0;
      DirectoryChangesOnlyByCd(st1, input[1..]);
      var cwd := Run(st, input).0.cwd;
      assert cwd == Run(st1, input[1..]).0.cwd;
      if cwd != st1.cwd {
        var k :| 0 <= k < |input| - 1 && Reads(st1, input[1..], k) && input[1..][k].os.chdirOk
          && CdTarget(Tokenize(input[1..][k].line), input[1..][k].os.home) == Some(cwd);
        assert input[1..][k] == input[k + 1];
        ReadsShift(st, input, k + 1);
        assert Reads(st, input, k + 1);
      } else if cwd != st.cwd {
        assert input[..0] == [];
        assert Reads(st, input, 0) && input[0].os.chdirOk
          && CdTarget(Tokenize(input[0].line), input[0].os.home) == Some(cwd);
      }
    }
  }

  /**
   * Lines are handled strictly in order: a `cd` on one line is seen by the
   * command on the next, and not by a command before it.
   */
  lemma CdIsSeenByLaterCommands(st: State, cd: Turn, cmd: Turn, path: string)
    requires st.running
    requires Tokenize(cd.line) == ["cd", path] && cd.os.chdirOk
    requires var argv := Tokenize(cmd.line);
      argv != [] && IsAllowedProgram(argv[0]) && cmd.os.spawnOk
    ensures Run(st, [cd, cmd]) == (st.(cwd := path), [Spawned(Tokenize(cmd.line), path)])
    ensures Run(st, [cmd, cd]) == (st.(cwd := path), [Spawned(Tokenize(cmd.line), st.cwd)])
  {
    var moved := st.(cwd := path);
    var none: seq<Event> := [];
    var after := [Spawned(Tokenize(cmd.line), path)];
    var before := [Spawned(Tokenize(cmd.line), st.cwd)];
    assert after + none == after && none + after == after;
    assert before + none == before && none + none == none;
    CdCases(st, cd);
    assert Step(st, cd) == (moved, []);
    SpawnRunsAllTokens(moved, cmd);
    assert [cd, cmd][1..] == [cmd] && [cmd][1..] == [];
    assert Run(moved, [cmd]) == (moved, after);
    assert Run(st, [cd, cmd]) == (moved, after);

    SpawnRunsAllTokens(st, cmd);
    assert [cmd, cd][1..] == [cd] && [cd][1..] == [];
    assert Run(st, [cd]) == (moved, none);
    assert Run(st, [cmd, cd]) == (moved, before);
  }
}
