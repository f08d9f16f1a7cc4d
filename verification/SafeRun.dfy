/**
 `expect` and `safe_run` on the serial console: the text is taken at the first chunk with which the prompt is in it, and
 exit code and output are dug out of that text. Chunks are cut anywhere.
 */
module SafeRun {
  import opened Sequences
  import opened Text
  import opened CommandFraming

  // ---------------------------------------------------------------- waiting for the prompt

  /** The text at the first chunk with which the prompt is in it; `None` is the timeout. */
  function Expected(chunks: seq<string>, prompt: string): Option<string> {
    if chunks == [] then None
    else
      var sofar := Expected(chunks[..|chunks| - 1], prompt);
      if sofar.Some? then sofar
      else if Occurs(Flat(chunks), prompt) then Some(Flat(chunks))
      else None
  }

  /** The prompt is in the text of the first `k` chunks. */
  predicate PromptBy(chunks: seq<string>, prompt: string, k: int) {
    0 < k <= |chunks| && Occurs(Flat(chunks[..k]), prompt)
  }

  ghost predicate Shown(chunks: seq<string>, prompt: string) {
    exists k :: PromptBy(chunks, prompt, k)
  }

  /** A beginning of fewer than `len` characters that ends with a chunk holds the prompt. */
  ghost predicate ShownBefore(chunks: seq<string>, prompt: string, len: int) {
    exists k :: PromptBy(chunks, prompt, k) && |Flat(chunks[..k])| < len
  }

  lemma {:induction false} ExpectedIsFirst(chunks: seq<string>, prompt: string) returns (k: nat)
    ensures Expected(chunks, prompt).Some? <==> Shown(chunks, prompt)
    ensures Expected(chunks, prompt).Some? ==>
              && PromptBy(chunks, prompt, k) && Expected(chunks, prompt).value == Flat(chunks[..k])
              && forall j :: j < k ==> !PromptBy(chunks, prompt, j)
    decreases |chunks|
  {
    k := |chunks|;
    if chunks != [] {
      var init := chunks[..|chunks| - 1];
      var k' := ExpectedIsFirst(init, prompt);
      assert chunks[..|chunks|] == chunks;
      assert Occurs(Flat(chunks), prompt) <==> PromptBy(chunks, prompt, |chunks|);
      forall j | PromptBy(chunks, prompt, j) && j <= |init| ensures PromptBy(init, prompt, j) {
        assert chunks[..j] == init[..j];
      }
      if Expected(init, prompt).Some? {
        k := k';
        assert chunks[..k] == init[..k];
        assert PromptBy(chunks, prompt, k);
      }
    }
  }

  lemma FlatBeginning(chunks: seq<string>, j: nat, k: nat)
    requires j <= k <= |chunks|
    ensures Flat(chunks[..j]) <= Flat(chunks[..k])
  {
    assert chunks[..k] == chunks[..j] + chunks[j..k];
    FlatConcat(chunks[..j], chunks[j..k]);
  }

  /** The text that is taken is short exactly when the prompt shows early. */
  lemma ExpectedLength(chunks: seq<string>, prompt: string, len: int)
    requires Shown(chunks, prompt)
    ensures Expected(chunks, prompt).Some? && Expected(chunks, prompt).value <= Flat(chunks)
    ensures |Expected(chunks, prompt).value| < len <==> ShownBefore(chunks, prompt, len)
  {
    var k := ExpectedIsFirst(chunks, prompt);
    assert chunks[..|chunks|] == chunks;
    FlatBeginning(chunks, k, |chunks|);
    if ShownBefore(chunks, prompt, len) {
      var j :| PromptBy(chunks, prompt, j) && |Flat(chunks[..j])| < len;
      FlatBeginning(chunks, k, j);
    }
  }

  /** The receive loop. */
  method Expect(chunks: seq<string>, prompt: string) returns (text: Option<string>)
    ensures text == Expected(chunks, prompt)
  {
    var buffer := "";
    text := None;
    assert chunks[..0] == [];
    for k := 0 to |chunks|
      invariant buffer == Flat(chunks[..k]) && Expected(chunks[..k], prompt).None?
    {
      assert chunks[..k + 1][..k] == chunks[..k];
      buffer := buffer + chunks[k];
      if Occurs(buffer, prompt) {
        Settled(chunks, k + 1, prompt);
        return Some(buffer);
      }
    }
    assert chunks[..|chunks|] == chunks;
  }

  /** Once the prompt was seen, later chunks change nothing. */
  lemma {:induction false} Settled(chunks: seq<string>, k: nat, prompt: string)
    requires k <= |chunks| && Expected(chunks[..k], prompt).Some?
    ensures Expected(chunks, prompt) == Expected(chunks[..k], prompt)
    decreases |chunks|
  {
    if k == |chunks| {
      assert chunks[..k] == chunks;
    } else {
      var init := chunks[..|chunks| - 1];
      assert init[..k] == chunks[..k];
      Settled(init, k, prompt);
    }
  }

  // ---------------------------------------------------------------- a console text that is cut short

  /** The length of the console text up to the last digit of the exit code. */
  function Finished(echo: string, start: string, out: string, exit: string, n: nat, nl: string): nat {
    |Head(echo, start, out, nl)| + |exit| + 1 + |Decimal(n)|
  }

  lemma ExitAtLonger(t: string, s: string, marker: string, i: int)
    requires t <= s && ExitAt(t, marker, i)
    ensures ExitAt(s, marker, i)
  {
    assert t[i..i + |marker| + 1] == s[i..i + |marker| + 1];
  }

  lemma {:induction false} NoExitFound(s: string, marker: string, lo: nat)
    requires forall i :: !ExitAt(s, marker, i)
    ensures FirstExit(s, marker, lo) == -1
    decreases |s| - lo
  {
    if lo < |s| {
      NoExitFound(s, marker, lo + 1);
    }
  }

  /** A number whose last digits are missing is too small. */
  lemma {:induction false} CutNumber(n: nat, k: nat)
    requires 0 < k < |Decimal(n)|
    ensures ParseInt(Decimal(n)[..k]) < n
  {
    var front := Decimal(n / 10);
    assert n >= 10 && Decimal(n)[..|front|] == front;
    assert Decimal(n)[..k] == front[..k];
    if k == |front| {
      assert front[..k] == front;
      DecimalRoundTrip(n / 10);
    } else {
      CutNumber(n / 10, k);
    }
  }

  /** Cut in front of the number, the text holds no exit code. */
  lemma CutBeforeNumber(echo: string, start: string, out: string, exit: string, n: nat, nl: string, trailer: string,
                        t: string)
    requires MarkerLike(exit) && IsNewline(nl) && !Occurs(start, exit) && !Occurs(out, exit)
    requires forall j :: !ExitAt(echo, exit, j)
    requires t <= Console(echo, start, out, exit, n, nl, trailer)
    requires |t| <= |Head(echo, start, out, nl)| + |exit| + 1
    ensures ExitCode(t, exit) == -2
  {
    var s, a := Console(echo, start, out, exit, n, nl, trailer), Head(echo, start, out, nl);
    var rest := exit + ":" + Decimal(n) + nl + trailer;
    assert s == a + rest;
    forall i ensures !ExitAt(t, exit, i) {
      if ExitAt(t, exit, i) {
        ExitAtLonger(t, s, exit, i);
        NoEarlierExit(echo, start, out, nl, exit, rest, i);
      }
    }
    NoExitFound(t, exit, 0);
  }

  /** How a text that reaches the number reads. */
  lemma CutInNumber(a: string, exit: string, d: string, rest: string, t: string)
    requires t <= a + exit + ":" + d + rest && |a| + |exit| + 1 < |t|
    ensures var k := if |t| < |a| + |exit| + 1 + |d| then |t| - |a| - |exit| - 1 else |d|;
            && 0 <= k && |a| + |exit| + 1 + k <= |t|
            && t == a + exit + ":" + d[..k] + t[|a| + |exit| + 1 + k..]
            && t[|a| + |exit| + 1 + k..] <= rest
  {
    var s := a + exit + ":" + d + rest;
    var m := |a| + |exit| + 1;
    var k := if |t| < m + |d| then |t| - m else |d|;
    assert t == s[..|t|] && s[..m] == a + exit + ":" && s[m..m + |d|] == d && s[m + |d|..] == rest;
    assert t[..m] == s[..m] && t[m..m + k] == d[..k];
  }

  /** The exit code is right exactly when all its digits have arrived. */
  lemma CutExitCode(echo: string, start: string, out: string, exit: string, n: nat, nl: string, trailer: string, t: string)
    requires MarkerLike(exit) && IsNewline(nl) && !Occurs(start, exit) && !Occurs(out, exit)
    requires forall j :: !ExitAt(echo, exit, j)
    requires t <= Console(echo, start, out, exit, n, nl, trailer)
    ensures ExitCode(t, exit) == n <==> Finished(echo, start, out, exit, n, nl) <= |t|
  {
    hide ExitCode, ExitAt, Occurs, Head, ParseInt, MarkerLike;
    var a, d := Head(echo, start, out, nl), Decimal(n);
    if |t| <= |a| + |exit| + 1 {
      CutBeforeNumber(echo, start, out, exit, n, nl, trailer, t);
    } else {
      assert Console(echo, start, out, exit, n, nl, trailer) == a + exit + ":" + d + (nl + trailer);
      CutInNumber(a, exit, d, nl + trailer, t);
      var k := if |t| < |a| + |exit| + 1 + |d| then |t| - |a| - |exit| - 1 else |d|;
      var rest := t[|a| + |exit| + 1 + k..];
      CodeBehindHead(echo, start, out, exit, d[..k], nl, rest);
      if k < |d| {
        CutNumber(n, k);
      } else {
        assert d[..k] == d;
        DecimalRoundTrip(n);
      }
    }
  }

  /** What is seen of the trailing text. */
  function Seen(echo: string, start: string, out: string, exit: string, n: nat, nl: string, t: string): string {
    var m := Finished(echo, start, out, exit, n, nl) + |nl|;
    if m <= |t| then t[m..] else ""
  }

  lemma SeenIsBeginning(echo: string, start: string, out: string, exit: string, n: nat, nl: string, trailer: string,
                        t: string)
    requires t <= Console(echo, start, out, exit, n, nl, trailer)
    ensures Seen(echo, start, out, exit, n, nl, t) <= trailer
    ensures var m := Finished(echo, start, out, exit, n, nl);
            && (m + |nl| <= |t| ==> t == Console(echo, start, out, exit, n, nl, Seen(echo, start, out, exit, n, nl, t)))
            && (m <= |t| < m + |nl| ==>
                  t == Head(echo, start, out, nl) + exit + ":" + (Decimal(n) + nl[..|t| - m]))
  {
    var a, d := Head(echo, start, out, nl), Decimal(n);
    var s, m := Console(echo, start, out, exit, n, nl, trailer), Finished(echo, start, out, exit, n, nl);
    var line := a + exit + ":" + d;
    assert s == line + nl + trailer && |line| == m && t == s[..|t|];
    if m + |nl| <= |t| {
      assert s[..m + |nl|] == line + nl && s[m + |nl|..] == trailer;
      assert t == line + nl + t[m + |nl|..];
    } else if m <= |t| {
      assert t == line + nl[..|t| - m];
    }
  }

  /** A text that ends within the newline behind the exit code holds the output. */
  lemma CutInNewline(echo: string, start: string, out: string, exit: string, n: nat, nl: string, k: nat, noise: string -> bool)
    requires MarkerLike(exit) && MarkerLike(start) && IsNewline(nl) && k < |nl| && !Occurs(out, start) && |exit| > 1
    ensures OutputLines(Body(Head(echo, start, out, nl) + exit + ":" + (Decimal(n) + nl[..k]), exit, start), noise) ==
            OutputLines(out, noise)
  {
    var d := Decimal(n);
    var y := d + nl[..k];
    forall i ensures !OccursAt(y, exit, i) {
      if 0 <= i && i + |exit| <= |y| {
        OccursAtByElement(y, exit, i);
        assert y[i + 0] == d[i];
      }
    }
    hide Body, OutputLines;
    BodyBeforeExit(echo, start, out, exit, nl, y);
    NewlinesInvisible(out, nl, noise);
  }

  // ---------------------------------------------------------------- the whole command

  /** The exit code reported for a shell command; -1 on a timeout. */
  function RunCode(chunks: seq<string>, prompt: string, token: string): int {
    var text := Expected(chunks, prompt);
    if text.None? then -1 else ExitCode(text.value, ExitMarker(token))
  }

  /** The lines reported for a shell command that did not time out. */
  function RunLines(text: string, prompt: string, token: string): seq<string> {
    OutputLines(Body(text, ExitMarker(token), StartMarker(token)), Noise(prompt))
  }

  /** What the framing asks of echo and output: no marker in the output, and no exit marker with a number in the echo. */
  ghost predicate Framed(token: string, echo: string, out: string, nl: string) {
    && IsToken(token) && IsNewline(nl)
    && !Occurs(out, ExitMarker(token)) && !Occurs(out, StartMarker(token))
    && forall j :: !ExitAt(echo, ExitMarker(token), j)
  }

  /** The console text of a framed command. */
  function ShellText(token: string, echo: string, out: string, n: nat, nl: string, trailer: string): string {
    Console(echo, StartMarker(token), out, ExitMarker(token), n, nl, trailer)
  }

  function CodeEnd(token: string, echo: string, out: string, n: nat, nl: string): nat {
    Finished(echo, StartMarker(token), out, ExitMarker(token), n, nl)
  }

  /**
   Over every cut of the console text, complete or not: the exit code comes back exactly if and only if the prompt is
   shown and no beginning that ends with a chunk in front of the finished exit line holds it.
   */
  lemma CodeIsExactIff(token: string, echo: string, out: string, n: nat, nl: string, trailer: string, prompt: string,
                       chunks: seq<string>)
    requires Framed(token, echo, out, nl) && Flat(chunks) <= ShellText(token, echo, out, n, nl, trailer)
    ensures RunCode(chunks, prompt, token) == n <==>
            Shown(chunks, prompt) && !ShownBefore(chunks, prompt, CodeEnd(token, echo, out, n, nl))
  {
    hide ExitCode, Console, Finished, Flat, ExitAt;
    var k := ExpectedIsFirst(chunks, prompt);
    if Shown(chunks, prompt) {
      ExpectedLength(chunks, prompt, CodeEnd(token, echo, out, n, nl));
      var exit, start := ExitMarker(token), StartMarker(token);
      MarkersAreMarkerLike(token);
      StartHoldsNoExit(token);
      CutExitCode(echo, start, out, exit, n, nl, trailer, Expected(chunks, prompt).value);
    }
  }

  /** And then the lines are those of `Returned` for the part of the trailing text that was seen. */
  lemma LinesAreExact(token: string, echo: string, out: string, n: nat, nl: string, trailer: string, prompt: string,
                      t: string)
    requires Framed(token, echo, out, nl) && t <= ShellText(token, echo, out, n, nl, trailer)
    requires CodeEnd(token, echo, out, n, nl) <= |t|
    ensures var exit, start := ExitMarker(token), StartMarker(token);
            var seen := Seen(echo, start, out, exit, n, nl, t);
            && seen <= trailer
            && RunLines(t, prompt, token) == Returned(out, exit, start, n, seen, Noise(prompt))
            && (!Occurs(trailer, exit) ==> RunLines(t, prompt, token) == OutputLines(out, Noise(prompt)))
  {
    hide Body, OutputLines, Console, Finished, ExitAt, Noise;
    var exit, start := ExitMarker(token), StartMarker(token);
    var seen := Seen(echo, start, out, exit, n, nl, t);
    MarkersAreMarkerLike(token);
    SeenIsBeginning(echo, start, out, exit, n, nl, trailer, t);
    if Occurs(seen, exit) {
      assert trailer == seen + trailer[|seen|..];
      OccursInPrefix(seen, trailer[|seen|..], exit);
    }
    var m := Finished(echo, start, out, exit, n, nl);
    if m + |nl| <= |t| {
      ExtractionIsExact(token, echo, out, n, nl, seen, prompt);
    } else {
      CutInNewline(echo, start, out, exit, n, nl, |t| - m, Noise(prompt));
    }
  }

  /** All cuts of one console text that shows the prompt return the exit code iff its exit line comes before the prompt. */
  lemma EveryCutIff(token: string, echo: string, out: string, n: nat, nl: string, trailer: string, prompt: string)
    requires Framed(token, echo, out, nl) && Occurs(ShellText(token, echo, out, n, nl, trailer), prompt)
    ensures var s, m := ShellText(token, echo, out, n, nl, trailer), CodeEnd(token, echo, out, n, nl);
            && m <= |s|
            && ((forall chunks :: Flat(chunks) == s ==> RunCode(chunks, prompt, token) == n) <==>
                !Occurs(s[..m - 1], prompt))
  {
    var s, m := ShellText(token, echo, out, n, nl, trailer), CodeEnd(token, echo, out, n, nl);
    hide ExitCode, Console, Finished, RunCode;
    ConsoleReaches(echo, StartMarker(token), out, ExitMarker(token), n, nl, trailer);
    if !Occurs(s[..m - 1], prompt) {
      forall chunks | Flat(chunks) == s ensures RunCode(chunks, prompt, token) == n {
        CodeIsExactIff(token, echo, out, n, nl, trailer, prompt, chunks);
        WholeShows(chunks, prompt);
        NotShownEarly(chunks, prompt, s, m);
      }
    } else {
      var chunks := [s[..m - 1], s[m - 1..]];
      TwoChunks(s[..m - 1], s[m - 1..]);
      CodeIsExactIff(token, echo, out, n, nl, trailer, prompt, chunks);
      assert PromptBy(chunks, prompt, 1) && |Flat(chunks[..1])| < m;
      assert RunCode(chunks, prompt, token) != n;
    }
  }

  lemma ConsoleReaches(echo: string, start: string, out: string, exit: string, n: nat, nl: string, trailer: string)
    ensures 0 < Finished(echo, start, out, exit, n, nl) <= |Console(echo, start, out, exit, n, nl, trailer)|
  {
  }

  lemma WholeShows(chunks: seq<string>, prompt: string)
    requires Flat(chunks) != "" && Occurs(Flat(chunks), prompt)
    ensures Shown(chunks, prompt)
  {
    assert chunks[..|chunks|] == chunks;
    assert PromptBy(chunks, prompt, |chunks|);
  }

  lemma NotShownEarly(chunks: seq<string>, prompt: string, s: string, m: nat)
    requires Flat(chunks) == s && 0 < m <= |s| && !Occurs(s[..m - 1], prompt)
    ensures !ShownBefore(chunks, prompt, m)
  {
    if ShownBefore(chunks, prompt, m) {
      var k :| PromptBy(chunks, prompt, k) && |Flat(chunks[..k])| < m;
      assert chunks[..|chunks|] == chunks;
      FlatBeginning(chunks, k, |chunks|);
      var t := Flat(chunks[..k]);
      assert s[..m - 1] == t + s[|t|..m - 1];
      OccursInPrefix(t, s[|t|..m - 1], prompt);
    }
  }

  lemma TwoChunks(a: string, b: string)
    ensures Flat([a, b]) == a + b && Flat([a, b][..1]) == a
  {
    assert [a, b][..1] == [a] && [a][..0] == [];
    assert Flat([a]) == "" + a == a;
  }

  /** The prompt inside the output, and a chunk that ends with the output: the exit code is lost. */
  lemma PromptInOutputCuts(token: string, echo: string, out: string, n: nat, nl: string, trailer: string, prompt: string)
      returns (chunks: seq<string>)
    requires Framed(token, echo, out, nl) && Occurs(out, prompt)
    ensures Flat(chunks) == ShellText(token, echo, out, n, nl, trailer) && RunCode(chunks, prompt, token) == -2
  {
    hide ExitCode, ExitAt;
    var exit, start := ExitMarker(token), StartMarker(token);
    var s, a := ShellText(token, echo, out, n, nl, trailer), echo + nl + start + nl + out;
    assert s == a + s[|a|..];
    OccursInSuffix(echo + nl + start + nl, out, prompt);
    chunks := [a, s[|a|..]];
    TwoChunks(a, s[|a|..]);
    FirstChunk(chunks, prompt);
    MarkersAreMarkerLike(token);
    StartHoldsNoExit(token);
    CutBeforeNumber(echo, start, out, exit, n, nl, trailer, a);
  }

  lemma FirstChunk(chunks: seq<string>, prompt: string)
    requires chunks != [] && Occurs(Flat(chunks[..1]), prompt)
    ensures Expected(chunks, prompt) == Some(Flat(chunks[..1]))
  {
    var one := chunks[..1];
    assert one[..0] == [] && Expected(one, prompt) == Some(Flat(one));
    Settled(chunks, 1, prompt);
  }

  const LOADERS: seq<string> := ["=>", "U-Boot", "barebox", "Verdin"]

  const LOADER_ERRORS: seq<string> := ["Unknown command", "Error"]

  /** A prompt of a boot loader, which has no `printf`. */
  predicate IsLoader(prompt: string) {
    AnyOccurs(prompt, LOADERS)
  }

  /**
   `safe_run`: a blank command only asks for the prompt; a timeout reports -1 with what was shown live; `raised` is the
   error asked for with `check_exit_code`.
   */
  method Run(cmd: string, token: string, prompt: string, chunks: seq<string>, live: string, checkExit: bool)
      returns (result: CommandResult, raised: bool)
    ensures Strip(cmd) == "" ==> result == CommandResult("", 0, true) && !raised
    ensures Strip(cmd) != "" ==> raised == (checkExit && !result.ok) && (result.ok <==> result.exited == 0)
    ensures Strip(cmd) != "" && !Shown(chunks, prompt) ==> result == CommandResult(live, -1, false)
    ensures Strip(cmd) != "" && !IsLoader(prompt) ==> result.exited == RunCode(chunks, prompt, token)
    ensures Strip(cmd) != "" && !IsLoader(prompt) && Expected(chunks, prompt).Some? ==>
              result.stdout == Strip(Join(RunLines(Expected(chunks, prompt).value, prompt, token)))
    ensures Strip(cmd) != "" && IsLoader(prompt) && Expected(chunks, prompt).Some? ==>
              && result.stdout == Strip(Join(OutputLines(Expected(chunks, prompt).value, Noise(prompt))))
              && result.exited == if AnyOccurs(result.stdout, LOADER_ERRORS) then 1 else 0
  {
    if Strip(cmd) == "" {
      return CommandResult("", 0, true), false;
    }
    ghost var k := ExpectedIsFirst(chunks, prompt);
    var text := Expect(chunks, prompt);
    if text.None? {
      result := CommandResult(live, -1, false);
    } else {
      result := Extract(text.value, token, prompt, IsLoader(prompt));
      assert Occurs(result.stdout, LOADER_ERRORS[0]) || Occurs(result.stdout, LOADER_ERRORS[1]) <==>
             AnyOccurs(result.stdout, LOADER_ERRORS);
    }
    raised := checkExit && !result.ok;
  }
}
