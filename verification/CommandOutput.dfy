/** What of a command's output comes back: which lines are dropped, how the others are joined, and the whole result. */
module CommandOutput {
  import opened Sequences
  import opened Text
  import opened CommandFraming
  import opened UartParser
  import SafeRun

  // ---------------------------------------------------------------- kernel log lines

  /** A bracketed time stamp, with white space in front of it, and anything behind. */
  predicate IsStamp(s: string, space: string, seconds: string, fraction: string, rest: string) {
    && s == "[" + space + seconds + "." + fraction + "]" + rest
    && Blank(space) && seconds != "" && AllDigits(seconds) && fraction != "" && AllDigits(fraction)
  }

  ghost predicate Stamped(s: string) {
    exists space, seconds, fraction, rest :: IsStamp(s, space, seconds, fraction, rest)
  }

  lemma {:induction false} SpacesEnd(s: string, i: nat)
    requires i <= |s|
    ensures var j := SkipSpaces(s, i); j <= |s| && Blank(s[i..j]) && (j < |s| ==> !IsSpace(s[j]))
    decreases |s| - i
  {
    if i < |s| && IsSpace(s[i]) {
      SpacesEnd(s, i + 1);
      var j := SkipSpaces(s, i);
      assert s[i..j] == [s[i]] + s[i + 1..j];
    }
  }

  lemma {:induction false} DigitsEnd(s: string, i: nat)
    requires i <= |s|
    ensures var j := SkipDigits(s, i); j <= |s| && AllDigits(s[i..j]) && (j < |s| ==> !IsDigit(s[j]))
    decreases |s| - i
  {
    if i < |s| && IsDigit(s[i]) {
      DigitsEnd(s, i + 1);
      var j := SkipDigits(s, i);
      assert s[i..j] == [s[i]] + s[i + 1..j];
    }
  }

  lemma {:induction false} SpacesAre(s: string, i: nat, n: nat)
    requires i <= n < |s| && Blank(s[i..n]) && !IsSpace(s[n])
    ensures SkipSpaces(s, i) == n
    decreases n - i
  {
    if i < n {
      assert s[i..n] == [s[i]] + s[i + 1..n];
      SpacesAre(s, i + 1, n);
    }
  }

  lemma {:induction false} DigitsAre(s: string, i: nat, n: nat)
    requires i <= n < |s| && AllDigits(s[i..n]) && !IsDigit(s[n])
    ensures SkipDigits(s, i) == n
    decreases n - i
  {
    if i < n {
      assert s[i..n] == [s[i]] + s[i + 1..n];
      DigitsAre(s, i + 1, n);
    }
  }

  /** A line is taken for a kernel log exactly if it begins with a bracketed time stamp. */
  lemma KernelLogIff(s: string)
    ensures IsKernelLog(s) <==> Stamped(s)
  {
    if IsKernelLog(s) {
      LogIsStamped(s);
    }
    if Stamped(s) {
      var space, seconds, fraction, rest :| IsStamp(s, space, seconds, fraction, rest);
      StampIsLog(s, space, seconds, fraction, rest);
    }
  }

  lemma LogIsStamped(s: string)
    requires IsKernelLog(s)
    ensures Stamped(s)
  {
    SpacesEnd(s, 1);
    var a := SkipSpaces(s, 1);
    DigitsEnd(s, a);
    var b := SkipDigits(s, a);
    DigitsEnd(s, b + 1);
    var c := SkipDigits(s, b + 1);
    Pieces(s, a, b, c);
    assert IsStamp(s, s[1..a], s[a..b], s[b + 1..c], s[c + 1..]);
  }

  lemma Pieces(s: string, a: nat, b: nat, c: nat)
    requires 1 <= a <= b < c < |s|
    ensures s == [s[0]] + s[1..a] + s[a..b] + [s[b]] + s[b + 1..c] + [s[c]] + s[c + 1..]
  {
  }

  lemma DigitIsSolid(c: char)
    requires IsDigit(c)
    ensures !IsSpace(c)
  {
  }

  lemma StampIsLog(s: string, space: string, seconds: string, fraction: string, rest: string)
    requires IsStamp(s, space, seconds, fraction, rest)
    ensures IsKernelLog(s)
  {
    var a := 1 + |space|;
    var b := a + |seconds|;
    var c := b + 1 + |fraction|;
    assert s[0] == '[' && s[1..a] == space && s[a..b] == seconds && s[b] == '.' && s[b + 1..c] == fraction && s[c] == ']';
    assert s[a] == seconds[0];
    DigitIsSolid(seconds[0]);
    hide IsSpace, SkipSpaces, SkipDigits;
    SpacesAre(s, 1, a);
    DigitsAre(s, a, b);
    DigitsAre(s, b + 1, c);
  }

  // ---------------------------------------------------------------- one line

  /** A line that comes back: something is visible, the prompt is not in it, and it is no kernel log. */
  ghost predicate Kept(line: string, prompt: string) {
    Strip(line) != "" && !Occurs(Strip(line), prompt) && !Stamped(Strip(line))
  }

  ghost function KeptLine(prompt: string): string -> seq<string> {
    (line: string) => if Kept(line, prompt) then [Strip(line)] else []
  }

  lemma KeepsKept(line: string, prompt: string)
    ensures KeepLine(Noise(prompt))(line) == KeptLine(prompt)(line)
  {
    KernelLogIff(Strip(line));
  }

  /** A single line comes back stripped exactly if it is visible, holds no prompt and has no time stamp. */
  lemma LineComesBackIff(line: string, prompt: string)
    requires Free(LF_ONLY, line)
    ensures OutputLines(line, Noise(prompt)) == if Kept(line, prompt) then [Strip(line)] else []
  {
    FreeIsOpen(LF_ONLY, line);
    GatherSnoc(KeepLine(Noise(prompt)), [], line);
    assert [] + [line] == [line];
    KeepsKept(line, prompt);
  }

  // ---------------------------------------------------------------- many lines

  /** Splitting what was joined gives the lines back. */
  lemma {:induction false} JoinSplits(lines: seq<string>)
    requires lines != [] && NoLf(lines)
    ensures SplitLf(Join(lines)) == lines
  {
    var init, line := lines[..|lines| - 1], lines[|lines| - 1];
    FreeIsOpen(LF_ONLY, line);
    assert [] + [line] == [line];
    if init == [] {
      assert lines == [line];
    } else {
      assert NoLf(init);
      JoinSplits(init);
      SplitAtLf(Join(init), line);
      assert lines == init + [line];
    }
  }

  /** And every text is its split lines, joined. */
  lemma {:induction false} SplitJoins(s: string)
    ensures SplitLf(s) != [] && NoLf(SplitLf(s)) && Join(SplitLf(s)) == s
  {
    var n := |s| - |Open(LF_ONLY, s)|;
    var o := Open(LF_ONLY, s);
    OpenIsFree(LF_ONLY, s);
    if n == 0 {
      assert s == o;
      FreeIsOpen(LF_ONLY, s);
      assert SplitLf(s) == [s];
    } else {
      var front := s[..n - 1];
      assert s == front + "\n" + o;
      SplitJoins(front);
      SplitAtLf(front, o);
      FreeIsOpen(LF_ONLY, o);
      assert [] + [o] == [o] && SplitLf(s) == SplitLf(front) + [o];
      assert (SplitLf(front) + [o])[..|SplitLf(front)|] == SplitLf(front);
    }
  }

  /** Of any output exactly the kept lines come back, stripped and in order. */
  lemma OutputIsKept(lines: seq<string>, prompt: string)
    requires lines != [] && NoLf(lines)
    ensures OutputLines(Join(lines), Noise(prompt)) == Gather(KeptLine(prompt), lines)
  {
    JoinSplits(lines);
    forall i | 0 <= i < |lines| ensures KeepLine(Noise(prompt))(lines[i]) == KeptLine(prompt)(lines[i]) {
      KeepsKept(lines[i], prompt);
    }
    GatherSame(KeepLine(Noise(prompt)), KeptLine(prompt), lines);
  }

  // ---------------------------------------------------------------- the whole result

  /** A line that comes back as it is. */
  ghost predicate Plain(line: string, prompt: string) {
    Kept(line, prompt) && Strip(line) == line
  }

  ghost predicate AllPlain(lines: seq<string>, prompt: string) {
    forall i :: 0 <= i < |lines| ==> Plain(lines[i], prompt)
  }

  lemma {:induction false} PlainStay(lines: seq<string>, prompt: string)
    requires AllPlain(lines, prompt)
    ensures Gather(KeptLine(prompt), lines) == lines
  {
    if lines != [] {
      hide Kept;
      var init, line := lines[..|lines| - 1], lines[|lines| - 1];
      PlainStay(init, prompt);
      assert Plain(line, prompt) && init + [line] == lines;
    }
  }

  lemma SolidStays(s: string)
    requires StartsSolid(s) && EndsSolid(s)
    ensures Strip(s) == s
  {
  }

  lemma {:induction false} JoinIsSolid(lines: seq<string>)
    requires lines != [] && forall i :: 0 <= i < |lines| ==> StartsSolid(lines[i]) && EndsSolid(lines[i])
    ensures StartsSolid(Join(lines)) && EndsSolid(Join(lines))
  {
    if |lines| > 1 {
      JoinIsSolid(lines[..|lines| - 1]);
    }
  }

  /** Plain lines come back joined as they were. */
  lemma PlainJoined(lines: seq<string>, prompt: string)
    requires lines != [] && AllPlain(lines, prompt)
    ensures Strip(Join(Gather(KeptLine(prompt), lines))) == Join(lines)
  {
    hide Strip, Gather, Join;
    PlainStay(lines, prompt);
    forall i | 0 <= i < |lines| ensures StartsSolid(lines[i]) && EndsSolid(lines[i]) {
      assert Plain(lines[i], prompt);
      StripTrims(lines[i]);
    }
    JoinIsSolid(lines);
    SolidStays(Join(lines));
  }

  /** Whatever the output, the kept lines come back of a text that holds all of the exit code. */
  lemma RunReturnsKept(token: string, echo: string, lines: seq<string>, n: nat, nl: string, trailer: string,
                       prompt: string, t: string)
    requires lines != [] && NoLf(lines) && SafeRun.Framed(token, echo, Join(lines), nl)
    requires t <= SafeRun.ShellText(token, echo, Join(lines), n, nl, trailer)
    requires SafeRun.CodeEnd(token, echo, Join(lines), n, nl) <= |t| && !Occurs(trailer, ExitMarker(token))
    ensures SafeRun.RunLines(t, prompt, token) == Gather(KeptLine(prompt), lines)
  {
    hide SafeRun.RunLines, SafeRun.Framed, SafeRun.ShellText, SafeRun.CodeEnd, OutputLines, Join, Gather;
    SafeRun.LinesAreExact(token, echo, Join(lines), n, nl, trailer, prompt, t);
    OutputIsKept(lines, prompt);
  }

  /**
   A shell command whose prompt does not show early: its exit code comes back, and of its output the visible lines without
   prompt and time stamp, stripped and in order; output that is all of this kind comes back as it was.
   */
  method RunFramed(cmd: string, token: string, prompt: string, chunks: seq<string>, live: string, checkExit: bool,
                   ghost echo: string, ghost lines: seq<string>, ghost n: nat, ghost nl: string, ghost trailer: string)
      returns (result: CommandResult, raised: bool)
    requires Strip(cmd) != "" && !SafeRun.IsLoader(prompt)
    requires lines != [] && NoLf(lines) && SafeRun.Framed(token, echo, Join(lines), nl)
    requires Flat(chunks) <= SafeRun.ShellText(token, echo, Join(lines), n, nl, trailer)
    requires SafeRun.Shown(chunks, prompt)
    requires !SafeRun.ShownBefore(chunks, prompt, SafeRun.CodeEnd(token, echo, Join(lines), n, nl))
    requires !Occurs(trailer, ExitMarker(token))
    ensures result.exited == n && (result.ok <==> n == 0) && (raised <==> checkExit && n != 0)
    ensures result.stdout == Strip(Join(Gather(KeptLine(prompt), lines)))
    ensures AllPlain(lines, prompt) ==> result.stdout == Join(lines)
  {
    hide SafeRun.RunLines, SafeRun.Framed, SafeRun.ShellText, SafeRun.CodeEnd, SafeRun.ShownBefore, SafeRun.Shown,
         SafeRun.RunCode, Join, Gather, Strip, SafeRun.IsLoader;
    SafeRun.CodeIsExactIff(token, echo, Join(lines), n, nl, trailer, prompt, chunks);
    SafeRun.ExpectedLength(chunks, prompt, SafeRun.CodeEnd(token, echo, Join(lines), n, nl));
    result, raised := SafeRun.Run(cmd, token, prompt, chunks, live, checkExit);
    RunReturnsKept(token, echo, lines, n, nl, trailer, prompt, SafeRun.Expected(chunks, prompt).value);
    if AllPlain(lines, prompt) {
      PlainJoined(lines, prompt);
    }
  }
}
