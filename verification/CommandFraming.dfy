/**
 Command results over a console: `safe_run` prints a start marker, runs the command, prints an exit
 marker with the exit code, and digs both out of the echoed, interleaved console text.
 */
module CommandFraming {
  import opened Sequences
  import opened Text
  import UartParser

  function ExitMarker(token: string): string {
    "__MES_EXIT_" + token + "__"
  }

  function StartMarker(token: string): string {
    "__MES_START_" + token + "__"
  }

  predicate IsHex(c: char) {
    '0' <= c <= '9' || 'a' <= c <= 'f'
  }

  /** `uuid4().hex[:8]`. */
  predicate IsToken(token: string) {
    |token| == 8 && forall i :: 0 <= i < |token| ==> IsHex(token[i])
  }

  predicate IsDigit(c: char) {
    '0' <= c <= '9'
  }

  predicate AllDigits(s: string) {
    forall i :: 0 <= i < |s| ==> IsDigit(s[i])
  }

  /** `%d` of a non-negative number. */
  function Decimal(n: nat): (s: string)
    ensures s != "" && AllDigits(s)
  {
    var last := [('0' as int + n % 10) as char];
    if n < 10 then last else Decimal(n / 10) + last
  }

  function ParseInt(s: string): int
    requires AllDigits(s)
  {
    if s == "" then 0 else 10 * ParseInt(s[..|s| - 1]) + (s[|s| - 1] as int - '0' as int)
  }

  lemma {:induction false} DecimalRoundTrip(n: nat)
    ensures ParseInt(Decimal(n)) == n
  {
    var s := Decimal(n);
    if n < 10 {
      assert s[..|s| - 1] == "";
    } else {
      DecimalRoundTrip(n / 10);
      assert s[..|s| - 1] == Decimal(n / 10);
    }
  }

  // ---------------------------------------------------------------- searching

  function LastIndex(s: string, p: string, hi: int): int
    decreases hi + 1
  {
    if hi < 0 then -1 else if OccursAt(s, p, hi) then hi else LastIndex(s, p, hi - 1)
  }

  /** Python's `s.rfind(p)`. */
  function RFind(s: string, p: string): int {
    LastIndex(s, p, |s|)
  }

  /** `marker:` and at least one digit, at `i`. */
  predicate ExitAt(s: string, marker: string, i: int) {
    OccursAt(s, marker + ":", i) && i + |marker| + 1 < |s| && IsDigit(s[i + |marker| + 1])
  }

  function FirstExit(s: string, marker: string, lo: nat): int
    decreases |s| - lo
  {
    if lo >= |s| then -1 else if ExitAt(s, marker, lo) then lo else FirstExit(s, marker, lo + 1)
  }

  /** The longest run of digits from `i`. */
  function DigitRun(s: string, i: nat): (r: string)
    ensures AllDigits(r)
    decreases |s| - i
  {
    if i < |s| && IsDigit(s[i]) then [s[i]] + DigitRun(s, i + 1) else ""
  }

  /** `re.search(f'{marker}:(\\d+)', s)`, as the exit code, or -2. */
  function ExitCode(s: string, marker: string): int {
    var i := FirstExit(s, marker, 0);
    if i < 0 then -2 else ParseInt(DigitRun(s, i + |marker| + 1))
  }

  lemma {:induction false} LastIndexIs(s: string, p: string, hi: int, i: int)
    requires 0 <= i <= hi && OccursAt(s, p, i)
    requires forall j :: i < j <= hi ==> !OccursAt(s, p, j)
    ensures LastIndex(s, p, hi) == i
    decreases hi
  {
    if hi > i {
      LastIndexIs(s, p, hi - 1, i);
    }
  }

  lemma {:induction false} FirstExitIs(s: string, marker: string, lo: nat, i: nat)
    requires lo <= i < |s| && ExitAt(s, marker, i)
    requires forall j :: lo <= j < i ==> !ExitAt(s, marker, j)
    ensures FirstExit(s, marker, lo) == i
    decreases i - lo
  {
    if lo < i {
      FirstExitIs(s, marker, lo + 1, i);
    }
  }

  lemma {:induction false} DigitRunIs(a: string, d: string, b: string)
    requires AllDigits(d) && (b == "" || !IsDigit(b[0]))
    ensures DigitRun(a + d + b, |a|) == d
    decreases |d|
  {
    var s := a + d + b;
    if d == "" {
      assert b != "" ==> s[|a|] == b[0];
    } else {
      assert s[|a|] == d[0];
      assert s == (a + [d[0]]) + d[1..] + b;
      DigitRunIs(a + [d[0]], d[1..], b);
      Split1(d);
    }
  }

  // ---------------------------------------------------------------- cleaning

  function SkipSpaces(s: string, i: nat): (j: nat)
    ensures j >= i
    decreases |s| - i
  {
    if i < |s| && IsSpace(s[i]) then SkipSpaces(s, i + 1) else i
  }

  function SkipDigits(s: string, i: nat): (j: nat)
    ensures j >= i
    decreases |s| - i
  {
    if i < |s| && IsDigit(s[i]) then SkipDigits(s, i + 1) else i
  }

  /** `^\[\s*\d+\.\d+\]`: a kernel log line's timestamp. */
  predicate IsKernelLog(s: string) {
    && s != "" && s[0] == '['
    && var a := SkipSpaces(s, 1);
       var b := SkipDigits(s, a);
       b > a && b < |s| && s[b] == '.'
       && var c := SkipDigits(s, b + 1);
          c > b + 1 && c < |s| && s[c] == ']'
  }

  /** A line that does not belong to the command's output: the prompt, or a kernel log. */
  function Noise(prompt: string): string -> bool {
    (clean: string) => Occurs(clean, prompt) || IsKernelLog(clean)
  }

  function KeepLine(noise: string -> bool): string -> seq<string> {
    (line: string) => if Strip(line) == "" || noise(Strip(line)) then [] else [Strip(line)]
  }

  /** The stripped lines of `s` that are neither blank nor noise. */
  function OutputLines(s: string, noise: string -> bool): seq<string> {
    Gather(KeepLine(noise), SplitLf(s))
  }

  function Join(lines: seq<string>): string {
    if lines == [] then ""
    else if |lines| == 1 then lines[0]
    else Join(lines[..|lines| - 1]) + "\n" + lines[|lines| - 1]
  }

  /** What stands between the last start marker and the last exit marker, where they are found. */
  function Body(stdout: string, exit: string, start: string): string {
    var end := RFind(stdout, exit);
    var upTo := if 0 <= end <= |stdout| then stdout[..end] else stdout;
    var begin := RFind(upTo, start);
    if 0 <= begin && begin + |start| <= |upTo| then upTo[begin + |start|..] else upTo
  }

  // ---------------------------------------------------------------- a piece without a separator stays on one side of it

  lemma NotAcross(x: string, c: char, y: string, p: string, i: int)
    requires c !in p
    ensures i <= |x| < i + |p| ==> !OccursAt(x + [c] + y, p, i)
  {
    var s := x + [c] + y;
    if 0 <= i <= |x| < i + |p| <= |s| {
      OccursAtByElement(s, p, i);
      assert s[i + (|x| - i)] == c;
      assert p[|x| - i] in p;
    }
  }

  lemma OnOneSide(x: string, c: char, y: string, p: string, i: int)
    requires c !in p && OccursAt(x + [c] + y, p, i)
    ensures (i + |p| <= |x| && OccursAt(x, p, i)) || (i > |x| && OccursAt(y, p, i - |x| - 1))
  {
    var s := x + [c] + y;
    NotAcross(x, c, y, p, i);
    if i + |p| <= |x| {
      assert x[i..i + |p|] == s[i..i + |p|];
    } else {
      assert y[i - |x| - 1..i - |x| - 1 + |p|] == s[i..i + |p|];
    }
  }

  // ---------------------------------------------------------------- the framed console text

  predicate IsNewline(nl: string) {
    nl == "\n" || nl == "\r\n"
  }

  /** Everything up to the exit marker. */
  function Head(echo: string, start: string, out: string, nl: string): string {
    echo + nl + start + nl + out + nl
  }

  /** What the console shows: echo, start marker, output, exit marker with the code, and the prompt. */
  function Console(echo: string, start: string, out: string, exit: string, n: nat, nl: string, trailer: string): string {
    Head(echo, start, out, nl) + exit + ":" + Decimal(n) + nl + trailer
  }

  /** What the proof uses of a marker. */
  predicate MarkerLike(m: string) {
    m != "" && !IsDigit(m[0]) && ':' !in m && '\n' !in m && '\r' !in m
  }

  predicate MarkerChar(c: char) {
    c == '_' || 'A' <= c <= 'Z' || IsHex(c)
  }

  predicate AllMarkerChars(s: string) {
    forall i :: 0 <= i < |s| ==> MarkerChar(s[i])
  }

  lemma MarkersAreMarkerLike(token: string)
    requires IsToken(token)
    ensures MarkerLike(ExitMarker(token)) && MarkerLike(StartMarker(token))
  {
    assert AllMarkerChars("__MES_EXIT_") && AllMarkerChars("__MES_START_") && AllMarkerChars("__");
    assert AllMarkerChars(ExitMarker(token)) && AllMarkerChars(StartMarker(token));
  }

  lemma StartHoldsNoExit(token: string)
    requires IsToken(token)
    ensures !Occurs(StartMarker(token), ExitMarker(token))
  {
    var e, s := ExitMarker(token), StartMarker(token);
    assert e[2] == 'M' && e[6] == 'E' && s[3] == 'E' && s[6] == 'S' && |s| == |e| + 1;
    forall i ensures !OccursAt(s, e, i) {
      if 0 <= i && i + |e| <= |s| {
        OccursAtByElement(s, e, i);
        assert i == 0 ==> s[i + 6] != e[6];
        assert i == 1 ==> s[i + 2] != e[2];
      }
    }
  }

  lemma BeforeCr(x: string, p: string, i: int)
    requires p != "" && '\r' !in p && OccursAt(x + ['\r'], p, i)
    ensures i + |p| <= |x| && OccursAt(x, p, i)
  {
    assert x + ['\r'] + [] == x + ['\r'];
    OnOneSide(x, '\r', [], p, i);
  }

  lemma AroundCrLf(x: string, y: string, p: string, i: int)
    requires p != "" && '\n' !in p && '\r' !in p && OccursAt((x + ['\r']) + ['\n'] + y, p, i)
    ensures (i + |p| <= |x| && OccursAt(x, p, i)) || (i >= |x| + 2 && OccursAt(y, p, i - |x| - 2))
  {
    OnOneSide(x + ['\r'], '\n', y, p, i);
    if i + |p| <= |x| + 1 {
      BeforeCr(x, p, i);
    }
  }

  /** A newline in front of `y` or behind `x` keeps a marker on one side. */
  lemma OnOneSideOfNewline(x: string, nl: string, y: string, p: string, i: int)
    requires IsNewline(nl) && p != "" && '\n' !in p && '\r' !in p && OccursAt(x + nl + y, p, i)
    ensures (i + |p| <= |x| && OccursAt(x, p, i)) || (i >= |x| + |nl| && OccursAt(y, p, i - |x| - |nl|))
  {
    if nl == "\n" {
      OnOneSide(x, '\n', y, p, i);
    } else {
      assert nl == ['\r'] + ['\n'];
      Assoc(x, ['\r'], ['\n']);
      AroundCrLf(x, y, p, i);
    }
  }

  /** Behind the exit marker's start there is no other one. */
  lemma LastExit(a: string, exit: string, y: string)
    requires MarkerLike(exit) && !Occurs(y, exit)
    ensures RFind(a + exit + ":" + y, exit) == |a|
  {
    var s, x := a + exit + ":" + y, a + exit;
    assert s == x + [':'] + y;
    assert OccursAt(s, exit, |a|) by { assert s[|a|..|a| + |exit|] == exit; }
    forall j | |a| < j <= |s| ensures !OccursAt(s, exit, j) {
      if OccursAt(s, exit, j) {
        OnOneSide(x, ':', y, exit, j);
      }
    }
    LastIndexIs(s, exit, |s|, |a|);
  }

  lemma DigitsHoldNoMarker(d: string, m: string, i: int)
    requires MarkerLike(m) && AllDigits(d)
    ensures !OccursAt(d, m, i)
  {
    if 0 <= i && i + |m| <= |d| {
      OccursAtByElement(d, m, i);
      assert d[i + 0] != m[0];
    }
  }

  lemma NoExitInTail(d: string, nl: string, trailer: string, exit: string, i: int)
    requires MarkerLike(exit) && AllDigits(d) && IsNewline(nl) && !Occurs(trailer, exit)
    ensures !OccursAt(d + nl + trailer, exit, i)
  {
    if OccursAt(d + nl + trailer, exit, i) {
      OnOneSideOfNewline(d, nl, trailer, exit, i);
      DigitsHoldNoMarker(d, exit, i);
    }
  }

  /** In front of the real exit marker nothing reads as one followed by a colon and a digit. */
  lemma NoEarlierExit(echo: string, start: string, out: string, nl: string, exit: string, rest: string, i: int)
    requires MarkerLike(exit) && IsNewline(nl)
    requires forall j :: !ExitAt(echo, exit, j)
    requires !Occurs(start, exit) && !Occurs(out, exit)
    requires 0 <= i < |Head(echo, start, out, nl)|
    ensures !ExitAt(Head(echo, start, out, nl) + rest, exit, i)
  {
    hide IsNewline;
    var s := Head(echo, start, out, nl) + rest;
    if ExitAt(s, exit, i) {
      var y1 := start + nl + (out + nl + rest);
      assert s == echo + nl + y1;
      MarkerOfExit(s, exit, i);
      OnOneSideOfNewline(echo, nl, y1, exit, i);
      if i + |exit| <= |echo| {
        ExitStaysInEcho(echo, nl, y1, exit, i);
      } else {
        var i1, y2 := i - |echo + nl|, out + nl + rest;
        assert y1 == start + nl + y2;
        OnOneSideOfNewline(start, nl, y2, exit, i1);
        OnOneSideOfNewline(out, nl, rest, exit, i1 - |start + nl|);
      }
    }
  }

  lemma MarkerOfExit(s: string, m: string, i: int)
    requires OccursAt(s, m + ":", i)
    ensures OccursAt(s, m, i) && s[i + |m|] == ':'
  {
    assert s[i..i + |m| + 1] == m + ":";
    assert s[i..i + |m|] == s[i..i + |m| + 1][..|m|];
    assert s[i..i + |m| + 1][|m|] == ':';
  }

  lemma ExitStaysInEcho(echo: string, nl: string, rest: string, m: string, i: int)
    requires IsNewline(nl) && ExitAt(echo + nl + rest, m, i) && i + |m| <= |echo|
    ensures ExitAt(echo, m, i)
  {
    var s := echo + nl + rest;
    MarkerOfExit(s, m, i);
    assert s[|echo|] == nl[0];
    assert i + |m| < |echo|;
    assert i + |m| + 1 < |echo|;
    assert echo[i..i + |m| + 1] == s[i..i + |m| + 1];
  }

  lemma ExitCodeOfConsole(echo: string, start: string, out: string, exit: string, n: nat, nl: string, trailer: string)
    requires MarkerLike(exit) && IsNewline(nl)
    requires forall j :: !ExitAt(echo, exit, j)
    requires !Occurs(start, exit) && !Occurs(out, exit)
    ensures ExitCode(Console(echo, start, out, exit, n, nl, trailer), exit) == n
  {
    assert Console(echo, start, out, exit, n, nl, trailer) ==
           Head(echo, start, out, nl) + exit + ":" + Decimal(n) + (nl + trailer);
    CodeBehindHead(echo, start, out, exit, Decimal(n), nl, nl + trailer);
    DecimalRoundTrip(n);
  }

  /** Whatever number stands behind the exit marker is the one that is read. */
  lemma CodeBehindHead(echo: string, start: string, out: string, exit: string, d: string, nl: string, rest: string)
    requires MarkerLike(exit) && IsNewline(nl)
    requires forall j :: !ExitAt(echo, exit, j)
    requires !Occurs(start, exit) && !Occurs(out, exit)
    requires d != "" && AllDigits(d) && (rest == "" || !IsDigit(rest[0]))
    ensures ExitCode(Head(echo, start, out, nl) + exit + ":" + d + rest, exit) == ParseInt(d)
  {
    hide ParseInt, DigitRun, ExitAt;
    var a := Head(echo, start, out, nl);
    var s := a + exit + ":" + d + rest;
    RealExit(a, exit, d, rest);
    forall j | 0 <= j < |a| ensures !ExitAt(s, exit, j) {
      NoEarlierExit(echo, start, out, nl, exit, exit + ":" + d + rest, j);
      assert a + (exit + ":" + d + rest) == s;
    }
    FirstExitIs(s, exit, 0, |a|);
  }

  lemma RealExit(a: string, exit: string, d: string, rest: string)
    requires d != "" && AllDigits(d) && (rest == "" || !IsDigit(rest[0]))
    ensures var s := a + exit + ":" + d + rest;
            |a| < |s| && ExitAt(s, exit, |a|) && DigitRun(s, |a| + |exit| + 1) == d
  {
    var s := a + exit + ":" + d + rest;
    assert s[|a|..|a| + |exit| + 1] == exit + ":";
    assert s[|a| + |exit| + 1] == d[0];
    DigitRunIs(a + exit + ":", d, rest);
  }

  /** Up to the exit marker, the start marker in front of the output is the last one. */
  lemma LastStart(x: string, start: string, nl: string, out: string)
    requires MarkerLike(start) && IsNewline(nl) && !Occurs(out, start)
    ensures RFind(x + start + nl + out + nl, start) == |x|
  {
    var s := x + start + nl + out + nl;
    assert s[|x|..|x| + |start|] == start;
    assert OccursAt(s, start, |x|);
    assert s == (x + start) + nl + (out + nl) && out + nl == out + nl + "";
    forall j | |x| < j <= |s| ensures !OccursAt(s, start, j) {
      if OccursAt(s, start, j) {
        OnOneSideOfNewline(x + start, nl, out + nl, start, j);
        OnOneSideOfNewline(out, nl, "", start, j - |x + start + nl|);
      }
    }
    LastIndexIs(s, start, |s|, |x|);
  }

  /** With no exit marker behind the real one, the framed output is what stands between the markers. */
  lemma BodyBeforeExit(echo: string, start: string, out: string, exit: string, nl: string, y: string)
    requires MarkerLike(exit) && MarkerLike(start) && IsNewline(nl) && !Occurs(out, start) && !Occurs(y, exit)
    ensures Body(Head(echo, start, out, nl) + exit + ":" + y, exit, start) == nl + out + nl
  {
    var a := Head(echo, start, out, nl);
    var s := a + exit + ":" + y;
    hide RFind;
    LastExit(a, exit, y);
    assert a <= s;
    BodyBetween(s, exit, start, a);
    LastStart(echo + nl, start, nl, out);
    assert a == (echo + nl + start) + (nl + out + nl);
    Behind(echo + nl + start, nl + out + nl, 0);
  }

  lemma BodyOfConsole(echo: string, start: string, out: string, exit: string, n: nat, nl: string, trailer: string)
    requires MarkerLike(exit) && MarkerLike(start) && IsNewline(nl)
    requires !Occurs(out, start) && !Occurs(trailer, exit)
    ensures Body(Console(echo, start, out, exit, n, nl, trailer), exit, start) == nl + out + nl
  {
    hide RFind, Body;
    var y := Decimal(n) + nl + trailer;
    forall i ensures !OccursAt(y, exit, i) {
      NoExitInTail(Decimal(n), nl, trailer, exit, i);
    }
    BodyBeforeExit(echo, start, out, exit, nl, y);
    assert Console(echo, start, out, exit, n, nl, trailer) == Head(echo, start, out, nl) + exit + ":" + y;
  }

  // ---------------------------------------------------------------- lines across newlines

  lemma KeepLineCr(noise: string -> bool, p: string)
    ensures KeepLine(noise)(p + ['\r']) == KeepLine(noise)(p)
  {
    UartParser.StripIgnoresBlank(p, ['\r']);
  }

  lemma OpenThenCr(out: string, cr: string)
    requires cr == "" || cr == "\r"
    ensures Complete(LF_ONLY, out + cr) == Complete(LF_ONLY, out)
    ensures Open(LF_ONLY, out + cr) == Open(LF_ONLY, out) + cr
  {
    if cr == "" {
      assert out + cr == out && Open(LF_ONLY, out) + cr == Open(LF_ONLY, out);
    } else {
      CompleteSnoc(LF_ONLY, out, '\r');
      assert cr == ['\r'];
    }
  }

  /** A carriage return at the end of a text shows in none of its lines. */
  lemma TrailingCr(p: string, cr: string, noise: string -> bool)
    requires cr == "" || cr == "\r"
    ensures OutputLines(p + cr, noise) == OutputLines(p, noise)
  {
    var o := Open(LF_ONLY, p);
    OpenThenCr(p, cr);
    GatherSnoc(KeepLine(noise), Complete(LF_ONLY, p), o);
    GatherSnoc(KeepLine(noise), Complete(LF_ONLY, p), o + cr);
    KeepLineCr(noise, o);
    assert o + "" == o;
  }

  lemma SplitAtLf(p: string, q: string)
    ensures SplitLf(p + "\n" + q) == SplitLf(p) + SplitLf(q)
  {
    CompleteSnoc(LF_ONLY, p, '\n');
    CompleteConcat(LF_ONLY, p + ['\n'], q);
    assert "" + q == q;
    Assoc(SplitLf(p), Complete(LF_ONLY, q), [Open(LF_ONLY, q)]);
  }

  /** A newline separates the lines in front of it from those behind it. */
  lemma LinesAcross(p: string, nl: string, q: string, noise: string -> bool)
    requires IsNewline(nl)
    ensures OutputLines(p + nl + q, noise) == OutputLines(p, noise) + OutputLines(q, noise)
  {
    var cr := nl[..|nl| - 1];
    assert p + nl + q == (p + cr) + "\n" + q;
    SplitAtLf(p + cr, q);
    GatherConcat(KeepLine(noise), SplitLf(p + cr), SplitLf(q));
    TrailingCr(p, cr, noise);
  }

  lemma NoLines(noise: string -> bool)
    ensures OutputLines("", noise) == []
  {
    GatherSnoc(KeepLine(noise), [], "");
    assert [] + [""] == [""] && Strip("") == "";
  }

  /** The newlines around the output add only blank lines. */
  lemma NewlinesInvisible(out: string, nl: string, noise: string -> bool)
    requires IsNewline(nl)
    ensures OutputLines(nl + out + nl, noise) == OutputLines(out, noise)
  {
    hide OutputLines;
    LeadingNewline(out + nl, nl, noise);
    assert nl + (out + nl) == nl + out + nl && out + nl + "" == out + nl;
    LinesAcross(out, nl, "", noise);
    NoLines(noise);
    assert OutputLines(out, noise) + [] == OutputLines(out, noise);
  }

  lemma LeadingNewline(p: string, nl: string, noise: string -> bool)
    requires IsNewline(nl)
    ensures OutputLines(nl + p, noise) == OutputLines(p, noise)
  {
    hide OutputLines;
    assert "" + nl + p == nl + p;
    LinesAcross("", nl, p, noise);
    NoLines(noise);
    assert [] + OutputLines(p, noise) == OutputLines(p, noise);
  }

  // ---------------------------------------------------------------- a later exit marker

  lemma {:induction false} LastIndexFound(s: string, p: string, hi: int)
    requires exists i :: 0 <= i <= hi && OccursAt(s, p, i)
    ensures var j := LastIndex(s, p, hi);
            0 <= j <= hi && OccursAt(s, p, j) && forall k :: j < k <= hi ==> !OccursAt(s, p, k)
    decreases hi
  {
    if !OccursAt(s, p, hi) {
      LastIndexFound(s, p, hi - 1);
    }
  }

  /** The last occurrence in the second part is the last of all. */
  lemma RFindBehind(x: string, y: string, p: string)
    requires Occurs(y, p)
    ensures 0 <= RFind(y, p) && RFind(y, p) + |p| <= |y| && RFind(x + y, p) == |x| + RFind(y, p)
  {
    LastIndexFound(y, p, |y|);
    var j := RFind(y, p);
    OccursAtTail(x + y, |x|, p, |x| + j);
    assert (x + y)[|x|..] == y;
    forall k | |x| + j < k <= |x + y| ensures !OccursAt(x + y, p, k) {
      if k + |p| <= |x + y| {
        OccursAtTail(x + y, |x|, p, k);
      }
    }
    LastIndexIs(x + y, p, |x + y|, |x| + j);
  }

  /** The exit marker with its number. */
  function ExitLine(exit: string, n: nat): string {
    exit + ":" + Decimal(n)
  }

  /** The part of the trailing text in front of its last exit marker. */
  function BeforeLate(trailer: string, exit: string): string {
    var e := RFind(trailer, exit);
    if 0 <= e <= |trailer| then trailer[..e] else trailer
  }

  lemma NoStartInExitLine(start: string, exit: string, n: nat, i: int)
    requires MarkerLike(start) && MarkerLike(exit) && |start| > |exit|
    ensures !OccursAt(ExitLine(exit, n), start, i)
  {
    if OccursAt(ExitLine(exit, n), start, i) {
      OnOneSide(exit, ':', Decimal(n), start, i);
      DigitsHoldNoMarker(Decimal(n), start, i - |exit| - 1);
    }
  }

  lemma LastStartBeforeLate(x: string, start: string, nl: string, out: string, line: string, rest: string)
    requires MarkerLike(start) && IsNewline(nl) && !Occurs(out, start) && !Occurs(rest, start) && !Occurs(line, start)
    ensures RFind(x + start + (nl + out + nl + line + nl + rest), start) == |x|
  {
    var tail := line + nl + rest;
    var body := out + nl + tail;
    var s := x + start + (nl + out + nl + line + nl + rest);
    assert s == (x + start) + nl + body;
    assert s[|x|..|x| + |start|] == start;
    forall j | |x| < j <= |s| ensures !OccursAt(s, start, j) {
      if OccursAt(s, start, j) {
        OnOneSideOfNewline(x + start, nl, body, start, j);
        var k := j - |x + start + nl|;
        OnOneSideOfNewline(out, nl, tail, start, k);
        OnOneSideOfNewline(line, nl, rest, start, k - |out + nl|);
      }
    }
    LastIndexIs(s, start, |s|, |x|);
  }

  /** With another exit marker behind the real one, everything up to it counts as output. */
  lemma BodyWithLateMarker(echo: string, start: string, out: string, exit: string, n: nat, nl: string, trailer: string)
    requires MarkerLike(exit) && MarkerLike(start) && |start| > |exit| && IsNewline(nl)
    requires !Occurs(out, start) && Occurs(trailer, exit)
    ensures var late := BeforeLate(trailer, exit);
            Body(Console(echo, start, out, exit, n, nl, trailer), exit, start) ==
            if Occurs(late, start) then Body(trailer, exit, start)
            else nl + out + nl + ExitLine(exit, n) + nl + late
  {
    hide RFind;
    var s, late := Console(echo, start, out, exit, n, nl, trailer), BeforeLate(trailer, exit);
    var front := Head(echo, start, out, nl) + exit + ":" + Decimal(n) + nl;
    assert s == front + trailer;
    RFindBehind(front, trailer, exit);
    BodyBetween(s, exit, start, front + late);
    if Occurs(late, start) {
      RFindBehind(front, late, start);
      BodyBetween(trailer, exit, start, late);
      Behind(front, late, RFind(late, start) + |start|);
    } else {
      var x, rest := echo + nl, nl + out + nl + ExitLine(exit, n) + nl + late;
      FrontIsHead(echo, start, out, exit, n, nl, late);
      forall i ensures !OccursAt(ExitLine(exit, n), start, i) {
        NoStartInExitLine(start, exit, n, i);
      }
      LastStartBeforeLate(x, start, nl, out, ExitLine(exit, n), late);
      Behind(x + start, rest, 0);
    }
  }

  lemma BodyBetween(s: string, exit: string, start: string, upTo: string)
    requires upTo <= s && RFind(s, exit) == |upTo|
    ensures 0 <= RFind(upTo, start) && RFind(upTo, start) + |start| <= |upTo| ==>
              Body(s, exit, start) == upTo[RFind(upTo, start) + |start|..]
  {
    hide RFind;
    assert s[..|upTo|] == upTo;
  }

  lemma Behind(a: string, b: string, k: nat)
    requires k <= |b|
    ensures (a + b)[|a| + k..] == b[k..]
  {
  }

  lemma FrontIsHead(echo: string, start: string, out: string, exit: string, n: nat, nl: string, late: string)
    ensures Head(echo, start, out, nl) + exit + ":" + Decimal(n) + nl + late ==
            (echo + nl) + start + (nl + out + nl + ExitLine(exit, n) + nl + late)
  {
  }

  /** The exit marker with its number reads as one line of output, unless the prompt is in it. */
  lemma ExitLineIsOutput(exit: string, n: nat, prompt: string)
    requires MarkerLike(exit) && exit[0] == '_'
    ensures OutputLines(ExitLine(exit, n), Noise(prompt)) ==
            if Occurs(ExitLine(exit, n), prompt) then [] else [ExitLine(exit, n)]
  {
    var line, d := ExitLine(exit, n), Decimal(n);
    assert line[0] == '_' && line[|line| - 1] == d[|d| - 1] && IsDigit(d[|d| - 1]);
    assert Strip(line) == line;
    assert Free(LF_ONLY, line);
    FreeIsOpen(LF_ONLY, line);
    GatherSnoc(KeepLine(Noise(prompt)), [], line);
    assert [] + [line] == [line];
  }

  lemma LinesWithLateMarker(out: string, nl: string, line: string, late: string, noise: string -> bool)
    requires IsNewline(nl)
    ensures OutputLines(nl + out + nl + line + nl + late, noise) ==
            OutputLines(out, noise) + OutputLines(line, noise) + OutputLines(late, noise)
  {
    hide OutputLines;
    LinesAcross(nl + out + nl + line, nl, late, noise);
    LinesAcross(nl + out, nl, line, noise);
    LeadingNewline(out, nl, noise);
  }

  /** The lines that come back for a framed command, whatever stands behind the exit marker. */
  function Returned(out: string, exit: string, start: string, n: nat, trailer: string, noise: string -> bool): seq<string> {
    if !Occurs(trailer, exit) then OutputLines(out, noise)
    else if Occurs(BeforeLate(trailer, exit), start) then OutputLines(Body(trailer, exit, start), noise)
    else OutputLines(out, noise) + OutputLines(ExitLine(exit, n), noise)
         + OutputLines(BeforeLate(trailer, exit), noise)
  }

  /**
   Whatever the echo and the output, the framed command's exit code comes back exactly, and so do the cleaned lines
   of the output unless a further exit marker stands behind the real one.
   */
  lemma ExtractionIsExact(token: string, echo: string, out: string, n: nat, nl: string, trailer: string, prompt: string)
    requires IsToken(token) && IsNewline(nl)
    requires !Occurs(out, ExitMarker(token)) && !Occurs(out, StartMarker(token))
    requires forall j :: !ExitAt(echo, ExitMarker(token), j)
    ensures var exit, start := ExitMarker(token), StartMarker(token);
            var s := Console(echo, start, out, exit, n, nl, trailer);
            && ExitCode(s, exit) == n
            && OutputLines(Body(s, exit, start), Noise(prompt)) == Returned(out, exit, start, n, trailer, Noise(prompt))
            && (!Occurs(trailer, exit) ==>
                  OutputLines(Body(s, exit, start), Noise(prompt)) == OutputLines(out, Noise(prompt)))
  {
    var exit, start := ExitMarker(token), StartMarker(token);
    MarkersAreMarkerLike(token);
    StartHoldsNoExit(token);
    ExitCodeOfConsole(echo, start, out, exit, n, nl, trailer);
    if Occurs(trailer, exit) {
      BodyWithLateMarker(echo, start, out, exit, n, nl, trailer);
      LinesWithLateMarker(out, nl, ExitLine(exit, n), BeforeLate(trailer, exit), Noise(prompt));
    } else {
      BodyOfConsole(echo, start, out, exit, n, nl, trailer);
      NewlinesInvisible(out, nl, Noise(prompt));
    }
  }

  /**
   With a further exit marker and no start marker in front of it, the output comes back exactly if and only if the
   prompt is in the marker line and nothing visible stands between the two markers.
   */
  lemma LateMarkerIff(token: string, out: string, n: nat, trailer: string, prompt: string)
    requires IsToken(token) && Occurs(trailer, ExitMarker(token))
    requires !Occurs(BeforeLate(trailer, ExitMarker(token)), StartMarker(token))
    ensures var exit := ExitMarker(token);
            Returned(out, exit, StartMarker(token), n, trailer, Noise(prompt)) == OutputLines(out, Noise(prompt)) <==>
            Occurs(ExitLine(exit, n), prompt) && OutputLines(BeforeLate(trailer, exit), Noise(prompt)) == []
  {
    var exit := ExitMarker(token);
    MarkersAreMarkerLike(token);
    ExitLineIsOutput(exit, n, prompt);
    var a, b := OutputLines(out, Noise(prompt)), OutputLines(ExitLine(exit, n), Noise(prompt));
    var c := OutputLines(BeforeLate(trailer, exit), Noise(prompt));
    assert |a + b + c| == |a| + |b| + |c|;
    if b == [] && c == [] {
      assert a + b + c == a;
    }
  }

  /** A second copy of the exit marker right behind the first turns the first into a line of output. */
  lemma LateMarkerLeaks(token: string, out: string, n: nat)
    requires IsToken(token)
    ensures var exit, noise := ExitMarker(token), Noise("root@");
            Returned(out, exit, StartMarker(token), n, exit, noise) == OutputLines(out, noise) + [ExitLine(exit, n)]
  {
    hide OutputLines, RFind;
    var exit, noise := ExitMarker(token), Noise("root@");
    MarkersAreMarkerLike(token);
    RFindSelf(exit);
    assert BeforeLate(exit, exit) == "" && !Occurs("", StartMarker(token));
    NoLines(noise);
    NoAtSign(token, n);
    ExitLineIsOutput(exit, n, "root@");
    assert OutputLines(out, noise) + [ExitLine(exit, n)] + [] == OutputLines(out, noise) + [ExitLine(exit, n)];
  }

  lemma RFindSelf(p: string)
    requires p != ""
    ensures RFind(p, p) == 0 && Occurs(p, p)
  {
    assert p[0..|p|] == p && OccursAt(p, p, 0);
    LastIndexFound(p, p, |p|);
  }

  lemma NoAtSign(token: string, n: nat)
    requires IsToken(token)
    ensures !Occurs(ExitLine(ExitMarker(token), n), "root@")
  {
    var line := ExitLine(ExitMarker(token), n);
    assert AllMarkerChars("__MES_EXIT_") && AllMarkerChars("__") && AllMarkerChars(ExitMarker(token));
    assert forall k :: 0 <= k < |line| ==> MarkerChar(line[k]) || line[k] == ':';
    forall i ensures !OccursAt(line, "root@", i) {
      if 0 <= i && i + 5 <= |line| {
        OccursAtByElement(line, "root@", i);
        assert line[i + 4] != "root@"[4];
      }
    }
  }

  /** The cleaning loop. */
  method CleanLines(stdout: string, noise: string -> bool) returns (lines: seq<string>)
    ensures lines == OutputLines(stdout, noise)
  {
    lines := [];
    var pieces := SplitLf(stdout);
    assert pieces[..0] == [];
    for k := 0 to |pieces|
      invariant lines == Gather(KeepLine(noise), pieces[..k])
    {
      assert pieces[..k + 1] == pieces[..k] + [pieces[k]];
      GatherSnoc(KeepLine(noise), pieces[..k], pieces[k]);
      var clean := Strip(pieces[k]);
      if clean == "" || noise(clean) {
        assert lines + [] == lines;
        continue;
      }
      lines := lines + [clean];
    }
    assert pieces[..|pieces|] == pieces;
  }

  datatype CommandResult = CommandResult(stdout: string, exited: int, ok: bool)

  /** The part of `safe_run` after the console text arrived. A bootloader prompt has no markers. */
  method Extract(raw: string, token: string, prompt: string, isUboot: bool) returns (result: CommandResult)
    ensures result.ok <==> result.exited == 0
    ensures !isUboot ==> result.exited == ExitCode(raw, ExitMarker(token))
    ensures !isUboot ==>
              result.stdout == Strip(Join(OutputLines(Body(raw, ExitMarker(token), StartMarker(token)), Noise(prompt))))
    ensures isUboot ==> result.stdout == Strip(Join(OutputLines(raw, Noise(prompt))))
    ensures isUboot ==>
              (result.exited == if Occurs(result.stdout, "Unknown command") || Occurs(result.stdout, "Error") then 1 else 0)
  {
    var stdout := raw;
    var exited := if isUboot then -1 else 0;
    if !isUboot {
      var exit, start := ExitMarker(token), StartMarker(token);
      exited := ExitCode(stdout, exit);
      stdout := Body(stdout, exit, start);
    }
    var lines := CleanLines(stdout, Noise(prompt));
    var clean := Strip(Join(lines));
    if isUboot && (Occurs(clean, "Unknown command") || Occurs(clean, "Error")) {
      exited := 1;
    } else if isUboot {
      exited := 0;
    }
    result := CommandResult(clean, exited, exited == 0);
  }
}
