/**
 * The tokenizer of the restricted shell: one input line is split with
 * strtok_r on the delimiters space, tab and newline, and at most 20 tokens
 * are kept (rsh.c:63-73).
 *
 * `Words` is the reference splitter; `StrTok` is one call of strtok_r;
 * `Tokenize` is what the loop in main produces and `TokenizeLine` is that
 * loop itself, filling an argv array in place.
 */
module Tokenizer {
  import opened Optional

  /** The cap on the number of tokens kept from one line (rsh.c:65, 69). */
  const MaxTokens: nat := 20

  /** The delimiter set passed to strtok_r: exactly space, tab and newline. */
  predicate IsDelim(c: char) {
    c == ' ' || c == '\t' || c == '\n'
  }

  predicate AllDelims(s: seq<char>) {
    forall i :: 0 <= i < |s| ==> IsDelim(s[i])
  }

  /** A token: non-empty and free of delimiters. */
  predicate IsWord(w: string) {
    |w| > 0 && forall i :: 0 <= i < |w| ==> !IsDelim(w[i])
  }

  /**
   * The line as a C string: strtok_r stops at the first NUL character, so
   * whatever follows a NUL in the buffer is never looked at.
   */
  function CStr(line: seq<char>): (s: seq<char>)
    ensures s <= line
    ensures '\0' !in s
    ensures |s| < |line| ==> line[|s|] == '\0'
  {
    if line == [] || line[0] == '\0' then [] else [line[0]] + CStr(line[1..])
  }

  /** The length of the delimiter-free run at the start of `s`. */
  function WordLen(s: seq<char>): (n: nat)
    ensures n <= |s|
    ensures forall i :: 0 <= i < n ==> !IsDelim(s[i])
    ensures n < |s| ==> IsDelim(s[n])
  {
    if s == [] || IsDelim(s[0]) then 0 else 1 + WordLen(s[1..])
  }

  /** The maximal delimiter-free runs of `s`, left to right. */
  function Words(s: seq<char>): (ws: seq<string>)
    ensures forall k :: 0 <= k < |ws| ==> IsWord(ws[k])
    decreases |s|
  {
    if s == [] then []
    else if IsDelim(s[0]) then Words(s[1..])
    else
      var n := WordLen(s);
      [s[..n]] + Words(s[n..])
  }

  /**
   * One call of strtok_r on the text left behind the save pointer: leading
   * delimiters are skipped; if nothing is left there is no token, otherwise
   * the token runs up to the next delimiter, which is overwritten and
   * stepped over. The result is the token and the new save-pointer text.
   */
  function StrTok(rest: seq<char>): (r: (Option<string>, seq<char>))
    ensures r.0.None? ==> Words(rest) == [] && r.1 == []
    ensures r.0.Some? ==> Words(rest) == [r.0.value] + Words(r.1) && |r.1| < |rest|
  {
    if rest == [] then (None, [])
    else if IsDelim(rest[0]) then StrTok(rest[1..])
    else
      var n := WordLen(rest);
      if n < |rest| then
        assert rest[n..][1..] == rest[n + 1..];
        (Some(rest[..n]), rest[n + 1..])
      else (Some(rest[..n]), [])
  }

  /** The argument vector main builds from one line. */
  function Tokenize(line: seq<char>): (argv: seq<string>)
    ensures |argv| <= MaxTokens
    ensures argv <= Words(CStr(line))
    ensures |argv| == MaxTokens || argv == Words(CStr(line))
    ensures forall k :: 0 <= k < |argv| ==> IsWord(argv[k])
  {
    var ws := Words(CStr(line));
    if |ws| <= MaxTokens then ws else ws[..MaxTokens]
  }

  /**
   * The tokenizing loop of main: strtok_r is called until it finds no more
   * tokens or 20 have been stored; each token is stored in the next slot of
   * argv and argc counts them. argv has the 21 slots of the C array (the
   * last one holds the terminating NULL there).
   */
  method TokenizeLine(line: seq<char>) returns (argv: array<string>, argc: nat)
    ensures argv.Length == MaxTokens + 1
    ensures argc <= MaxTokens
    ensures argv[..argc] == Tokenize(line)
  {
    argv := new string[MaxTokens + 1](_ => "");
    argc := 0;
    ghost var words := Words(CStr(line));
    var first := StrTok(CStr(line));
    var tok, save := first.0, first.1;
    while tok.Some? && argc < MaxTokens
      invariant argc <= MaxTokens && argc <= |words|
      invariant argv[..argc] == words[..argc]
      invariant tok.None? ==> argc == |words|
      invariant tok.Some? ==> words[argc..] == [tok.value] + Words(save)
      decreases MaxTokens - argc
    {
      argv[argc] := tok.value;
      assert words[argc] == tok.value;
      assert words[argc + 1..] == Words(save);
      argc := argc + 1;
      var next := StrTok(save);
      tok, save := next.0, next.1;
    }
    assert argc == MaxTokens || argc == |words|;
  }

  // ---------------------------------------------------------------------
  // A line as words separated by runs of delimiters

  /** seps[0] + ws[0] + seps[1] + ws[1] + ... + ws[n-1] + seps[n]. */
  function Assemble(seps: seq<string>, ws: seq<string>): (s: seq<char>)
    requires |seps| == |ws| + 1
    decreases ws
  {
    if ws == [] then seps[0] else seps[0] + ws[0] + Assemble(seps[1..], ws[1..])
  }

  /**
   * Separator runs: all delimiters, and the inner ones (between two words)
   * non-empty; the leading and trailing runs may be empty.
   */
  predicate Separators(seps: seq<string>) {
    && (forall i :: 0 <= i < |seps| ==> AllDelims(seps[i]))
    && (forall i :: 0 < i < |seps| - 1 ==> |seps[i]| > 0)
  }

  /** The separator runs of `s`, one more than its words. */
  function Gaps(s: seq<char>): (seps: seq<string>)
    ensures |seps| == |Words(s)| + 1
    decreases |s|
  {
    if s == [] then [[]]
    else if IsDelim(s[0]) then
      var g := Gaps(s[1..]);
      [[s[0]] + g[0]] + g[1..]
    else
      [[]] + Gaps(s[WordLen(s)..])
  }

  lemma {:induction false} WordsSkipDelims(d: seq<char>, t: seq<char>)
    requires AllDelims(d)
    ensures Words(d + t) == Words(t)
    decreases |d|
  {
    if d == [] {
      assert d + t == t;
    } else {
      assert (d + t)[0] == d[0] && IsDelim(d[0]);
      assert (d + t)[1..] == d[1..] + t;
      WordsSkipDelims(d[1..], t);
    }
  }

  lemma {:induction false} WordLenOfWord(w: string, t: seq<char>)
    requires IsWord(w)
    requires t == [] || IsDelim(t[0])
    ensures WordLen(w + t) == |w|
    decreases |w|
  {
    assert (w + t)[1..] == w[1..] + t;
    if |w| > 1 {
      WordLenOfWord(w[1..], t);
    } else {
      assert w[1..] + t == t;
    }
  }

  lemma {:induction false} WordsAfterWord(w: string, t: seq<char>)
    requires IsWord(w)
    requires t == [] || IsDelim(t[0])
    ensures Words(w + t) == [w] + Words(t)
  {
    WordLenOfWord(w, t);
    assert (w + t)[..|w|] == w;
    assert (w + t)[|w|..] == t;
  }

  /**
   * Uniqueness: a line made of words separated by delimiter runs splits
   * back into exactly those words, in that order.
   */
  lemma {:induction false} WordsOfAssemble(seps: seq<string>, ws: seq<string>)
    requires |seps| == |ws| + 1
    requires Separators(seps)
    requires forall k :: 0 <= k < |ws| ==> IsWord(ws[k])
    ensures Words(Assemble(seps, ws)) == ws
    decreases ws
  {
    if ws == [] {
      WordsSkipDelims(seps[0], []);
      assert seps[0] + [] == seps[0];
    } else {
      var rest := Assemble(seps[1..], ws[1..]);
      assert Assemble(seps, ws) == seps[0] + (ws[0] + rest);
      WordsSkipDelims(seps[0], ws[0] + rest);
      if ws[1..] == [] {
        assert rest == seps[1];
        assert AllDelims(seps[1]);
      } else {
        assert |seps[1]| > 0;
        assert rest == seps[1] + ws[1] + Assemble(seps[2..], ws[2..]);
        assert IsDelim(seps[1][0]);
      }
      WordsAfterWord(ws[0], rest);
      assert Separators(seps[1..]);
      WordsOfAssemble(seps[1..], ws[1..]);
    }
  }

  lemma {:induction false} AssemblePrepend(p: seq<char>, seps: seq<string>, ws: seq<string>)
    requires |seps| == |ws| + 1
    ensures Assemble([p + seps[0]] + seps[1..], ws) == p + Assemble(seps, ws)
  {
    var seps' := [p + seps[0]] + seps[1..];
    assert seps'[1..] == seps[1..];
    if ws != [] {
      assert p + seps[0] + ws[0] + Assemble(seps[1..], ws[1..])
          == p + (seps[0] + ws[0] + Assemble(seps[1..], ws[1..]));
    }
  }

  lemma {:induction false} AssembleGapsDelim(s: seq<char>)
    requires s != [] && IsDelim(s[0])
    requires Separators(Gaps(s[1..]))
    requires Assemble(Gaps(s[1..]), Words(s[1..])) == s[1..]
    ensures Separators(Gaps(s))
    ensures Assemble(Gaps(s), Words(s)) == s
  {
    var g := Gaps(s[1..]);
    AssemblePrepend([s[0]], g, Words(s[1..]));
    assert [s[0]] + s[1..] == s;
    var seps := Gaps(s);
    assert seps == [[s[0]] + g[0]] + g[1..];
    forall i | 0 <= i < |seps| ensures AllDelims(seps[i]) {
      if i > 0 { assert seps[i] == g[i]; }
    }
    forall i | 0 < i < |seps| - 1 ensures |seps[i]| > 0 {
      assert seps[i] == g[i];
    }
  }

  lemma {:induction false} SeparatorsAfterWord(g: seq<string>)
    requires Separators(g)
    requires |g| > 1 ==> |g[0]| > 0
    ensures Separators([[]] + g)
  {
    var seps := [[]] + g;
    forall i | 0 <= i < |seps| ensures AllDelims(seps[i]) {
      if i > 0 { assert seps[i] == g[i - 1]; }
    }
    forall i | 0 < i < |seps| - 1 ensures |seps[i]| > 0 {
      assert seps[i] == g[i - 1];
    }
  }

  lemma {:induction false} WordsOfWordStart(s: seq<char>)
    requires s != [] && !IsDelim(s[0])
    ensures Words(s) == [s[..WordLen(s)]] + Words(s[WordLen(s)..])
    ensures Gaps(s) == [[]] + Gaps(s[WordLen(s)..])
  {
  }

  lemma {:induction false} GapsLeadingDelim(t: seq<char>)
    requires t == [] || IsDelim(t[0])
    ensures |Gaps(t)| > 1 ==> |Gaps(t)[0]| > 0
  {
    if t == [] {
      assert Gaps(t) == [[]];
    }
  }

  lemma {:induction false} AssembleAfterWord(w: string, g: seq<string>, wt: seq<string>)
    requires |g| == |wt| + 1
    ensures Assemble([[]] + g, [w] + wt) == w + Assemble(g, wt)
  {
    assert ([[]] + g)[1..] == g;
    assert ([w] + wt)[1..] == wt;
  }

  lemma {:induction false} AssembleGapsWord(s: seq<char>, n: nat)
    requires s != [] && !IsDelim(s[0]) && n == WordLen(s)
    requires Separators(Gaps(s[n..]))
    requires Assemble(Gaps(s[n..]), Words(s[n..])) == s[n..]
    ensures Separators(Gaps(s))
    ensures Assemble(Gaps(s), Words(s)) == s
  {
    var t := s[n..];
    var g := Gaps(t);
    WordsOfWordStart(s);
    AssembleAfterWord(s[..n], g, Words(t));
    assert s[..n] + t == s;
    assert t == [] || IsDelim(t[0]) by {
      if n < |s| { assert t[0] == s[n]; }
    }
    GapsLeadingDelim(t);
    SeparatorsAfterWord(g);
  }

  /**
   * Order: every string is its words, in the order they occur, separated by
   * its delimiter runs.
   */
  lemma {:induction false} AssembleGaps(s: seq<char>)
    ensures Separators(Gaps(s))
    ensures Assemble(Gaps(s), Words(s)) == s
    decreases |s|
  {
    if s == [] {
    } else if IsDelim(s[0]) {
      AssembleGaps(s[1..]);
      AssembleGapsDelim(s);
    } else {
      AssembleGaps(s[WordLen(s)..]);
      AssembleGapsWord(s, WordLen(s));
    }
  }

  /**
   * A NUL-free line of delimiter-separated words yields exactly those words
   * when there are at most 20, and exactly the first 20 otherwise.
   */
  lemma {:induction false} TokenizeSeparatedWords(line: seq<char>, seps: seq<string>, ws: seq<string>)
    requires '\0' !in line
    requires |seps| == |ws| + 1 && Separators(seps)
    requires forall k :: 0 <= k < |ws| ==> IsWord(ws[k])
    requires line == Assemble(seps, ws)
    ensures |ws| <= MaxTokens ==> Tokenize(line) == ws
    ensures |ws| > MaxTokens ==> Tokenize(line) == ws[..MaxTokens]
  {
    assert CStr(line) == line;
    WordsOfAssemble(seps, ws);
  }

  /** An empty or all-delimiter line yields no tokens. */
  lemma {:induction false} BlankLineHasNoTokens(line: seq<char>)
    requires AllDelims(line)
    ensures Tokenize(line) == []
  {
    assert forall i :: 0 <= i < |line| ==> line[i] != '\0';
    TokenizeSeparatedWords(line, [line], []);
  }

  lemma {:induction false} CStrStopsAtNul(before: seq<char>, after: seq<char>)
    requires '\0' !in before
    ensures CStr(before + ['\0'] + after) == before
    decreases |before|
  {
    var line := before + ['\0'] + after;
    if before != [] {
      assert line[0] == before[0];
      assert line[1..] == before[1..] + ['\0'] + after;
      CStrStopsAtNul(before[1..], after);
      assert [before[0]] + before[1..] == before;
    }
  }

  /** A NUL ends the line: what follows it never produces a token. */
  lemma {:induction false} TokenizeStopsAtNul(before: seq<char>, after: seq<char>)
    requires '\0' !in before
    ensures Tokenize(before + ['\0'] + after) == Tokenize(before)
  {
    CStrStopsAtNul(before, after);
    assert CStr(before) == before;
  }

  /** Example: the newline that fgets keeps is a delimiter. */
  lemma {:induction false} TokenizeCdLine()
    ensures Tokenize("cd /tmp\n") == ["cd", "/tmp"]
  {
    var seps, ws := ["", " ", "\n"], ["cd", "/tmp"];
    assert Separators(seps) by {
      assert AllDelims(seps[0]) && AllDelims(seps[1]) && AllDelims(seps[2]);
    }
    assert IsWord(ws[0]) && IsWord(ws[1]);
    assert Assemble(seps[2..], ws[2..]) == "\n";
    assert Assemble(seps[1..], ws[1..]) == " " + "/tmp" + "\n";
    assert Assemble(seps, ws) == "cd /tmp\n";
    TokenizeSeparatedWords("cd /tmp\n", seps, ws);
  }

  /** Example: a carriage return is not a delimiter and stays in the token. */
  lemma {:induction false} TokenizeCarriageReturn()
    ensures Tokenize("ls\r\n") == ["ls\r"]
  {
    var seps, ws := ["", "\n"], ["ls\r"];
    assert Separators(seps) by {
      assert AllDelims(seps[0]) && AllDelims(seps[1]);
    }
    assert IsWord(ws[0]);
    assert Assemble(seps[1..], ws[1..]) == "\n";
    assert Assemble(seps, ws) == "ls\r\n";
    TokenizeSeparatedWords("ls\r\n", seps, ws);
  }
}
