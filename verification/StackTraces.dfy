/** packages/common/src/converter/failure-converter.ts, `cutoffStackTrace`: the part of a stack trace that is user
    code. */
module StackTraces {
  import opened Sequences
  import opened Wrappers

  /** `stack.split(/\r?\n/)`. */
  function Lines(stack: string): (lines: seq<string>)
    ensures lines != []
  {
    if stack == "" then [""]
    else if stack[0] == '\n' then [""] + Lines(stack[1..])
    else if |stack| > 1 && stack[0] == '\r' && stack[1] == '\n' then [""] + Lines(stack[2..])
    else var rest := Lines(stack[1..]); [[stack[0]] + rest[0]] + rest[1..]
  }

  function Join(lines: seq<string>): string {
    if lines == [] then "" else if |lines| == 1 then lines[0] else lines[0] + "\n" + Join(lines[1..])
  }

  /** The text with every "\r\n" as "\n". */
  function WithFeeds(s: string): string {
    if s == "" then ""
    else if |s| > 1 && s[0] == '\r' && s[1] == '\n' then "\n" + WithFeeds(s[2..])
    else [s[0]] + WithFeeds(s[1..])
  }

  lemma JoinFirst(first: string, rest: seq<string>)
    requires rest != []
    ensures Join([first] + rest) == first + "\n" + Join(rest)
  {
  }

  lemma JoinLonger(c: char, lines: seq<string>)
    requires lines != []
    ensures Join([[c] + lines[0]] + lines[1..]) == [c] + Join(lines)
  {
    if |lines| > 1 {
      var first, rest := lines[0], lines[1..];
      assert lines == [first] + rest;
      JoinFirst(first, rest);
      JoinFirst([c] + first, rest);
      hide Join;
      Associative([c], first, "\n");
      Associative([c], first + "\n", Join(rest));
    }
  }

  predicate NoFeeds(lines: seq<string>) { forall k :: 0 <= k < |lines| ==> '\n' !in lines[k] }

  lemma NoFeedsLonger(first: string, lines: seq<string>)
    requires NoFeeds(lines) && '\n' !in first
    ensures NoFeeds([first] + lines)
    ensures lines != [] ==> NoFeeds([first + lines[0]] + lines[1..])
  {
  }

  /** The lines are those of the text: none holds a line feed, and joined they give the text back, but for the carriage
      returns before line feeds. */
  lemma {:induction false} LinesOfText(stack: string)
    ensures NoFeeds(Lines(stack)) && Join(Lines(stack)) == WithFeeds(stack)
    decreases |stack|
  {
    if stack != "" {
      if stack[0] == '\n' {
        LinesOfText(stack[1..]);
        LineEnds(Lines(stack[1..]));
        assert [stack[0]] == "\n";
      } else if |stack| > 1 && stack[0] == '\r' && stack[1] == '\n' {
        LinesOfText(stack[2..]);
        LineEnds(Lines(stack[2..]));
      } else {
        var rest := Lines(stack[1..]);
        LinesOfText(stack[1..]);
        assert Lines(stack) == [[stack[0]] + rest[0]] + rest[1..];
        assert WithFeeds(stack) == [stack[0]] + WithFeeds(stack[1..]);
        hide Lines, Join, WithFeeds, NoFeeds;
        NoFeedsLonger([stack[0]], rest);
        JoinLonger(stack[0], rest);
      }
    }
  }

  lemma LineEnds(rest: seq<string>)
    requires rest != [] && NoFeeds(rest)
    ensures NoFeeds([""] + rest) && Join([""] + rest) == "\n" + Join(rest)
  {
    NoFeedsLonger("", rest);
    JoinFirst("", rest);
    hide Join, NoFeeds;
    assert "" + "\n" + Join(rest) == "\n" + Join(rest);
  }

  type Pattern = string -> bool

  predicate Matches(patterns: seq<Pattern>, line: string) { exists k :: 0 <= k < |patterns| && patterns[k](line) }

  /** The lines before the first framework line. */
  function UserLines(patterns: seq<Pattern>, lines: seq<string>): seq<string> {
    if lines == [] || Matches(patterns, lines[0]) then [] else [lines[0]] + UserLines(patterns, lines[1..])
  }

  function Cutoff(patterns: seq<Pattern>, stack: Option<string>): string {
    Join(UserLines(patterns, Lines(if stack.Some? then stack.value else "")))
  }

  /** The first `n` lines, up to the first one that matches. */
  ghost predicate LongestUnmatched(patterns: seq<Pattern>, lines: seq<string>, n: nat) {
    && n <= |lines| && (forall k :: 0 <= k < n ==> !Matches(patterns, lines[k]))
    && (n < |lines| ==> Matches(patterns, lines[n]))
  }

  ghost predicate IsCutoff(patterns: seq<Pattern>, lines: seq<string>, cut: string) {
    exists n: nat :: LongestUnmatched(patterns, lines, n) && cut == Join(lines[..n])
  }

  method CutoffStackTrace(patterns: seq<Pattern>, stack: Option<string>) returns (cut: string)
    ensures cut == Cutoff(patterns, stack)
    ensures IsCutoff(patterns, Lines(if stack.Some? then stack.value else ""), cut)
  {
    hide Lines, Join, Matches, IsCutoff, UserLines;
    var lines := Lines(if stack.Some? then stack.value else "");
    var acc: seq<string> := [];
    var i := 0;
    while i < |lines|
      invariant 0 <= i <= |lines|
      invariant UserLines(patterns, lines) == acc + UserLines(patterns, lines[i..])
    {
      var line := lines[i];
      UserLinesFrom(patterns, lines, i);
      var framework := TestPatterns(patterns, line);
      if framework {
        break;
      }
      Associative(acc, [line], UserLines(patterns, lines[i + 1..]));
      acc := acc + [line];
      i := i + 1;
    }
    UserLinesFrom(patterns, lines, |lines|);
    assert lines[|lines|..] == [] && acc + [] == acc;
    CutoffIsLongest(patterns, lines);
    cut := Join(acc);
  }

  lemma UserLinesFrom(patterns: seq<Pattern>, lines: seq<string>, i: nat)
    ensures UserLines(patterns, []) == []
    ensures i < |lines| ==>
              UserLines(patterns, lines[i..]) ==
              if Matches(patterns, lines[i]) then [] else [lines[i]] + UserLines(patterns, lines[i + 1..])
  {
    if i < |lines| {
      assert lines[i..][1..] == lines[i + 1..];
    }
  }

  /** The inner loop: does some pattern match the line? */
  method TestPatterns(patterns: seq<Pattern>, line: string) returns (framework: bool)
    ensures framework == Matches(patterns, line)
  {
    var k := 0;
    while k < |patterns|
      invariant 0 <= k <= |patterns|
      invariant forall j :: 0 <= j < k ==> !patterns[j](line)
    {
      if patterns[k](line) { return true; }
      k := k + 1;
    }
    return false;
  }

  /** What is kept is the longest run of leading lines none of which matches. */
  lemma {:induction false} UserLinesAreLongest(patterns: seq<Pattern>, lines: seq<string>)
    ensures var kept := UserLines(patterns, lines);
      && kept <= lines && (forall k :: 0 <= k < |kept| ==> !Matches(patterns, kept[k]))
      && (|kept| < |lines| ==> Matches(patterns, lines[|kept|]))
  {
    if lines != [] && !Matches(patterns, lines[0]) { UserLinesAreLongest(patterns, lines[1..]); }
  }

  lemma CutoffIsLongest(patterns: seq<Pattern>, lines: seq<string>)
    ensures IsCutoff(patterns, lines, Join(UserLines(patterns, lines)))
  {
    var kept := UserLines(patterns, lines);
    UserLinesAreLongest(patterns, lines);
    hide UserLines, Matches, Join;
    assert LongestUnmatched(patterns, lines, |kept|) && lines[..|kept|] == kept;
  }
}
