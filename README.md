# rsh: a restricted shell, modelled in Dafny

`rsh` is a small interactive shell. It reads one line at a time and splits
it into at most 20 whitespace-separated tokens. It handles three builtins
itself: `exit`, `help` and `cd`. It spawns an external program only when
the first token names one of nine allowlisted programs: `cp touch mkdir ls
pwd cat grep chmod diff`. Anything else is answered with `NOT ALLOWED!`,
and so is an allowlisted program that cannot be spawned.

The model has five modules:

- `Optional` (`optional.dfy`): the Some/None type. It stands for a C pointer
  that may be NULL, such as the result of `getenv("HOME")`.
- `Tokenizer` (`tokenizer.dfy`): the tokenizing loop of `main`.
  - `StrTok` is one call of `strtok_r` on the delimiters space, tab and newline.
  - `TokenizeLine` is the loop itself. It fills a 21-slot `argv` array in
    place and counts `argc`. Its contract ties the array to the pure
    `Tokenize`.
  - `Tokenize` is the first 20 of `Words`, the reference splitter, applied
    to the line up to its first NUL character.
  - `Assemble` rebuilds a line from words and the delimiter runs between
    them. `WordsOfAssemble` proves that splitting returns exactly those
    words. `AssembleGaps` proves that every line is its words, in order,
    with delimiter runs between them.
- `Commands` (`commands.dfy`): the tables.
  - `IsAllowedProgram` and `IsBuiltin` are exact, case-sensitive
    early-return scans over constant tables.
  - `HelpText` is the fixed text that `print_help` writes.
- `Shell` (`shell.dfy`): the loop of `main`.
  - `Dispatch` decides an `Outcome` from the tokens.
  - `Step` carries out one line.
  - `Run` is a whole session: it stops at `exit` or at the end of the input.
  - `HandleLine` and `Session` are the imperative loop body and loop. Their
    contracts tie them to `Step` and `Run`.
- `ShellProperties` (`properties.dfy`): lemmas about `Step` and `Run`, over
  single lines and over whole sessions.

The operating system is not called. Everything it would answer while one
line is handled travels with that line as an `Os` value:

- the value of `HOME`, as an `Option<string>`;
- whether `chdir` succeeds;
- the `strerror` text;
- whether `posix_spawnp` succeeds.

The state carried from line to line is the current directory and the
running flag. What the user sees is a sequence of `Event`s. Each one is a
line on standard output (`Say`) or a child run with an argument vector in a
directory (`Spawned`).

Two facts about the code shape the model:

- `fgets` does not truncate an over-long line. It returns the rest of that
  line as the next line (`rsh.c:59`). Line reading is not modelled, so each
  `Turn` is one line as `fgets` returned it.
- `main` never calls `is_builtin`. It compares the first token with `exit`,
  `help` and `cd` directly (`rsh.c:81-88`), before it consults the allowlist
  (`rsh.c:111`). `Dispatch` is written the same way, and its contract proves
  that this order is "builtins first" in terms of `IsBuiltin`.

## Model

| member | source | states |
|---|---|---|
| `Tokenizer.CStr` | rsh.c:68 | strtok_r sees the line only up to its first NUL: the result is the longest NUL-free prefix of the buffer |
| `Tokenizer.Words` | rsh.c:63-72 | every word of a line is non-empty and contains no space, tab or newline |
| `Tokenizer.StrTok` | rsh.c:68-71 | one strtok_r call either finds no token, and then the rest has no words, or returns the first word and leaves exactly the remaining words behind the save pointer, strictly shortening it |
| `Tokenizer.Tokenize` | rsh.c:63-73 | at most 20 tokens; they are a prefix of the line's words; either all of the words or exactly 20; every token is non-empty and free of delimiters |
| `Tokenizer.TokenizeLine` | rsh.c:63-73 | the strtok_r loop fills argv[0..argc) with exactly `Tokenize(line)`, with argc at most 20, in an array of 21 slots |
| `Tokenizer.WordsOfAssemble` | rsh.c:64-72 | words joined by runs of space/tab/newline (inner runs non-empty) split back into exactly those words, in order |
| `Tokenizer.AssembleGaps` | rsh.c:64-72 | every line is its words, in the order they occur, separated by delimiter runs: tokens keep the line's order and lose only delimiters |
| `Tokenizer.TokenizeSeparatedWords` | rsh.c:69-72 | a NUL-free line of delimiter-separated words yields exactly those words when there are at most 20, and exactly the first 20 when there are more |
| `Tokenizer.BlankLineHasNoTokens` | rsh.c:63-76 | an empty or all-delimiter line yields zero tokens |
| `Tokenizer.CStrStopsAtNul` | rsh.c:68 | the C-string view of a buffer ends at the first NUL |
| `Tokenizer.TokenizeStopsAtNul` | rsh.c:68-71 | text after a NUL never produces a token |
| `Tokenizer.TokenizeCdLine` | rsh.c:64 | `cd /tmp` followed by the newline fgets keeps yields the tokens `cd` and `/tmp` |
| `Tokenizer.TokenizeCarriageReturn` | rsh.c:64 | a carriage return is not a delimiter: `ls\r\n` yields the single token `ls\r` |
| `Commands.Scan` | rsh.c:17-21 | the early-return table scan from index i answers true exactly when some entry at or after i equals the name |
| `Commands.IsAllowedProgram` | rsh.c:12-22 | true exactly for the nine names cp, touch, mkdir, ls, pwd, cat, grep, chmod, diff (exact, case-sensitive) |
| `Commands.IsBuiltin` | rsh.c:24-31 | true exactly for cd, exit, help |
| `Commands.BuiltinsNotAllowlisted` | rsh.c:12-31 | no name is both a builtin and allowlisted |
| `Commands.HelpText` | rsh.c:33-47 | the literal text print_help writes: a header line and one line per command, 1 + 9 + 3 lines; its numbering and order are stated by `HelpListsEveryCommand` |
| `Commands.HelpListsEveryCommand` | rsh.c:33-46 | the help text is the header followed by 12 lines numbered 1 to 12: the nine allowlisted programs in table order, then cd, exit, help |
| `Commands.HelpNamesAreTheCommands` | rsh.c:12-46 | a name is listed by help exactly when it is allowlisted or builtin |
| `Shell.Dispatch` | rsh.c:75-126 | zero tokens give Skip; `exit` first gives Exit whatever follows; `help` gives Help; `cd` gives CdTooMany with 2 or more arguments, CdTo(argument) with one, CdHome(HOME) or CdNoop with none; a builtin outcome exactly when the first token is a builtin (builtins before the allowlist); NotAllowed exactly when the name is not builtin and not both allowlisted and spawnable; Spawn exactly for an allowlisted name that spawns, with the whole token sequence |
| `Shell.CdTarget` | rsh.c:88-105 | a line calls chdir exactly when it is `cd` with at most one argument: on that argument when there is one, on HOME (if set) when there is none |
| `Shell.ChangeDir` | rsh.c:93-104 | a successful chdir moves the directory to the path and prints nothing; a failed one keeps the directory and prints `-rsh: cd: <path>: <reason>`; the loop keeps running either way |
| `Shell.Perform` | rsh.c:81-130 | carrying out an outcome stops the loop only for Exit, moves the directory only for a cd outcome whose chdir succeeds, and runs a child only for Spawn, with its argument vector in the current directory |
| `Shell.Step` | rsh.c:62-133 | one line stops the loop exactly when its first token is `exit`; the directory changes only to the cd target and only when chdir succeeds; a spawned child is an allowlisted name run with the whole token sequence in the current directory; a line without tokens changes nothing and prints nothing |
| `Shell.Run` | rsh.c:54-133 | a session that has stopped reads no more lines and prints nothing; a stopped loop never restarts; its other properties are the `ShellProperties` session lemmas |
| `Shell.HandleLine` | rsh.c:62-133 | the imperative loop body (tokenize, compare with exit/help/cd, allowlist, spawn) gives exactly the new directory, stop flag and output of `Step` |
| `Shell.Session` | rsh.c:50-136 | the imperative main loop gives exactly the final state and output of `Run`, returning at `exit` or at the end of the input, with exit status 0 |
| `ShellProperties.ExitEndsSession` | rsh.c:81-83 | `exit`, with or without arguments, ends the session at once, prints nothing and ignores every later line |
| `ShellProperties.HelpChangesNothing` | rsh.c:84-87 | `help` prints the fixed listing and leaves the state as it was, in any state and with any arguments |
| `ShellProperties.CdCases` | rsh.c:88-107 | `cd` never stops the loop; with 2 or more arguments it only prints the too-many-arguments line; alone with HOME unset it does nothing; alone with HOME set it goes to HOME; with one argument it goes to exactly that path; a failing chdir keeps the directory and prints the error line with the path |
| `ShellProperties.RejectionLooksLikeSpawnFailure` | rsh.c:111-126 | an unknown name and an allowlisted program whose spawn fails both produce only `NOT ALLOWED!` and no state change |
| `ShellProperties.SpawnRunsAllTokens` | rsh.c:118-130 | an allowlisted name that spawns runs with the full token sequence, command name first, in the current directory, and nothing else happens |
| `ShellProperties.NothingAfterExit` | rsh.c:81-83 | once the loop has stopped, later input changes neither the final state nor the output |
| `ShellProperties.BlankLinesAreIgnored` | rsh.c:75-76 | a session of empty or all-delimiter lines prints nothing and changes nothing |
| `ShellProperties.SpawnsOnlyAllowlisted` | rsh.c:110-120 | every child a session runs has an allowlisted name and is the full token sequence of an input line the loop actually read (one before any `exit`) |
| `ShellProperties.DirectoryChangesOnlyByCd` | rsh.c:88-107 | a session ends in its starting directory or in the target of a `cd` line, read by the loop before any `exit`, whose chdir succeeded |
| `ShellProperties.CdIsSeenByLaterCommands` | rsh.c:54-133 | lines run strictly in order: a command after a successful `cd` runs in the new directory, a command before it in the old one |

## Left out

- Line reading with `fgets` into a 4096-byte buffer (`rsh.c:51-60`). This is
  stream I/O. The input is a sequence of lines, and the end of that
  sequence is end-of-file. An over-long line split by `fgets` into two lines
  is not modelled.
- The prompt `rsh> ` on standard error, `fflush`, and the trailing newline
  of each printed line. A `Say` event is one output line without its
  newline.
- `getenv`, `chdir`, `posix_spawnp`, `waitpid` and `environ`. These are
  operating-system calls, so their answers are inputs (`Os`). The child's
  exit status is collected by the shell and never shown, so the model
  leaves it out.
- Path resolution by `chdir`. The current directory is modelled as the
  last path handed to a successful `chdir`. Relative paths, `..` and
  symbolic links are the operating system's business.
- `strdup`/`free` bookkeeping and the NULL terminator in `argv[argc]`.
  These are C memory management; `TokenizeLine` leaves that slot empty. A
  failed `strdup` is not modelled.
- The exact `strerror` text. It is an input string in `Os`.
