/**
 * The fixed command tables of the restricted shell (rsh.c:12-48): the
 * programs that may be spawned, the builtin names, and the help listing.
 */
module Commands {

  /** The spawn allowlist, in table order (rsh.c:13-16). */
  const AllowedSpawn: seq<string> :=
    ["cp", "touch", "mkdir", "ls", "pwd", "cat", "grep", "chmod", "diff"]

  /** The builtin names, in table order (rsh.c:25). */
  const BuiltinNames: seq<string> := ["cd", "exit", "help"]

  /**
   * The early-return scan both table tests run: compare `cmd` with the
   * entries from index `i` on, stopping at the first exact match.
   */
  function Scan(table: seq<string>, cmd: string, i: nat): (found: bool)
    requires i <= |table|
    ensures found <==> exists j :: i <= j < |table| && table[j] == cmd
    decreases |table| - i
  {
    if i == |table| then false
    else if table[i] == cmd then true
    else Scan(table, cmd, i + 1)
  }

  /** is_allowed_program: exact, case-sensitive membership in the allowlist. */
  function IsAllowedProgram(cmd: string): (allowed: bool)
    ensures allowed <==>
      || cmd == "cp" || cmd == "touch" || cmd == "mkdir"
      || cmd == "ls" || cmd == "pwd" || cmd == "cat"
      || cmd == "grep" || cmd == "chmod" || cmd == "diff"
  {
    Scan(AllowedSpawn, cmd, 0)
  }

  /** is_builtin: exact, case-sensitive membership in the builtin table. */
  function IsBuiltin(cmd: string): (builtin: bool)
    ensures builtin <==> cmd == "cd" || cmd == "exit" || cmd == "help"
  {
    Scan(BuiltinNames, cmd, 0)
  }

  /** No name is both a builtin and an allowlisted program. */
  lemma BuiltinsNotAllowlisted(cmd: string)
    ensures !(IsBuiltin(cmd) && IsAllowedProgram(cmd))
  {
  }

  /** The text print_help writes, one string per output line. */
  function HelpText(): (lines: seq<string>)
    ensures |lines| == 1 + |AllowedSpawn| + |BuiltinNames|
  {
    [ "The allowed commands are:",
      "1: cp", "2: touch", "3: mkdir", "4: ls", "5: pwd", "6: cat",
      "7: grep", "8: chmod", "9: diff", "10: cd", "11: exit", "12: help" ]
  }

  /** The decimal numeral of `n`, most significant digit first. */
  function Decimal(n: nat): (s: string)
    ensures |s| > 0
  {
    var digit := "0123456789"[n % 10];
    if n < 10 then [digit] else Decimal(n / 10) + [digit]
  }

  /**
   * The help listing is a header followed by the twelve commands numbered
   * 1 to 12: the nine allowlisted programs in table order, then the three
   * builtins.
   */
  lemma HelpListsEveryCommand()
    ensures |HelpText()| == 13
    ensures HelpText()[0] == "The allowed commands are:"
    ensures forall i :: 1 <= i <= 12 ==>
      HelpText()[i] == Decimal(i) + ": " + (AllowedSpawn + BuiltinNames)[i - 1]
  {
    var names := AllowedSpawn + BuiltinNames;
    var numerals := ["1", "2", "3", "4", "5", "6", "7", "8", "9", "10", "11", "12"];
    DecimalUpToTwelve(numerals);
    forall i | 1 <= i <= 12
      ensures HelpText()[i] == Decimal(i) + ": " + names[i - 1]
    {
      assert HelpText()[i] == numerals[i - 1] + ": " + names[i - 1];
    }
  }

  lemma DecimalUpToTwelve(numerals: seq<string>)
    requires numerals == ["1", "2", "3", "4", "5", "6", "7", "8", "9", "10", "11", "12"]
    ensures forall i :: 1 <= i <= 12 ==> Decimal(i) == numerals[i - 1]
  {
    assert Decimal(1) == "1" && Decimal(2) == "2" && Decimal(3) == "3";
    assert Decimal(4) == "4" && Decimal(5) == "5" && Decimal(6) == "6";
    assert Decimal(7) == "7" && Decimal(8) == "8" && Decimal(9) == "9";
    assert Decimal(10) == "10" && Decimal(11) == "11" && Decimal(12) == "12";
  }

  /** Every listed name is a command the shell accepts, and vice versa. */
  lemma HelpNamesAreTheCommands(cmd: string)
    ensures cmd in AllowedSpawn + BuiltinNames <==> IsAllowedProgram(cmd) || IsBuiltin(cmd)
  {
  }
}
