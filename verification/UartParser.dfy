/** `UartStreamParser`: the shared line buffer, and when it agrees with the event stream's lines. */
module UartParser {
  import opened Sequences
  import opened Text

  const CR_ONLY: set<char> := {'\r'}

  // ---------------------------------------------------------------- stripping

  predicate Blank(s: string) {
    forall i :: 0 <= i < |s| ==> IsSpace(s[i])
  }

  lemma {:induction false} StripLeftBlank(a: string, b: string)
    requires Blank(a)
    ensures StripLeft(a + b) == StripLeft(b)
  {
    if a == "" {
      assert a + b == b;
    } else {
      assert (a + b)[1..] == a[1..] + b;
      StripLeftBlank(a[1..], b);
    }
  }

  lemma {:induction false} StripRightBlank(b: string, a: string)
    requires Blank(a)
    ensures StripRight(b + a) == StripRight(b)
  {
    if a == "" {
      assert b + a == b;
    } else {
      assert (b + a)[..|b + a| - 1] == b + a[..|a| - 1];
      StripRightBlank(b, a[..|a| - 1]);
    }
  }

  lemma {:induction false} StripRightKeeps(a: string, b: string)
    ensures Blank(b) || StripRight(a + b) == a + StripRight(b)
    decreases |b|
  {
    if b != "" && IsSpace(b[|b| - 1]) {
      var b' := b[..|b| - 1];
      assert (a + b)[..|a + b| - 1] == a + b';
      StripRightKeeps(a, b');
      assert Blank(b') ==> Blank(b);
    }
  }

  lemma {:induction false} BlankStripsToNothing(s: string)
    ensures Strip(s) == "" <==> Blank(s)
  {
    if Blank(s) {
      StripRightBlank("", s);
      assert "" + s == s;
    } else {
      StripRightSolid(s);
      StripLeftSolid(StripRight(s));
    }
  }

  lemma {:induction false} StripRightSolid(s: string)
    requires !Blank(s)
    ensures !Blank(StripRight(s))
  {
    if IsSpace(s[|s| - 1]) {
      assert !Blank(s[..|s| - 1]);
      StripRightSolid(s[..|s| - 1]);
    }
  }

  lemma {:induction false} StripLeftSolid(s: string)
    requires !Blank(s)
    ensures StripLeft(s) != ""
  {
    if IsSpace(s[0]) {
      assert !Blank(s[1..]);
      StripLeftSolid(s[1..]);
    }
  }

  predicate NoLf(lines: seq<string>) {
    forall i :: 0 <= i < |lines| ==> Free(LF_ONLY, lines[i])
  }

  predicate StartsSolid(s: string) {
    s != "" && !IsSpace(s[0])
  }

  predicate EndsSolid(s: string) {
    s != "" && !IsSpace(s[|s| - 1])
  }

  lemma StripTrims(s: string)
    ensures Strip(s) != "" ==> StartsSolid(Strip(s)) && EndsSolid(Strip(s))
  {
    StripRightEnds(s);
    StripLeftStarts(StripRight(s));
  }

  lemma {:induction false} StripRightEnds(s: string)
    ensures StripRight(s) == "" || EndsSolid(StripRight(s))
  {
    if s != "" && IsSpace(s[|s| - 1]) {
      StripRightEnds(s[..|s| - 1]);
    }
  }

  lemma {:induction false} StripLeftStarts(s: string)
    ensures StripLeft(s) == "" || StartsSolid(StripLeft(s))
    ensures EndsSolid(s) ==> EndsSolid(StripLeft(s))
  {
    if s != "" && IsSpace(s[0]) {
      StripLeftStarts(s[1..]);
    }
  }

  /** Blank text around a piece does not show in its stripped form. */
  lemma StripIgnoresBlank(a: string, b: string)
    ensures Blank(a) ==> Strip(a + b) == Strip(b)
    ensures Blank(b) ==> Strip(a + b) == Strip(a)
  {
    if Blank(b) {
      StripRightBlank(a, b);
    }
    if Blank(a) {
      StripRightKeeps(a, b);
      if Blank(b) {
        assert Blank(a + b);
        BlankStripsToNothing(a + b);
        BlankStripsToNothing(b);
      } else {
        StripLeftBlank(a, StripRight(b));
      }
    }
  }

  // ---------------------------------------------------------------- CRLF does not matter to the parser

  lemma CleanTrailingCr(p: string)
    ensures CleanOne(p + ['\r']) == CleanOne(p)
  {
    StripIgnoresBlank(p, ['\r']);
  }

  /** Two texts with the same cleaned lines and the same unfinished one. */
  predicate SameClean(s: string, t: string) {
    && Clean(Complete(LF_ONLY, s)) == Clean(Complete(LF_ONLY, t))
    && Open(LF_ONLY, s) == Open(LF_ONLY, t)
  }

  lemma CleanChar(s: string, t: string, c: char)
    requires SameClean(s, t)
    ensures SameClean(s + [c], t + [c])
  {
    CompleteSnoc(LF_ONLY, s, c);
    CompleteSnoc(LF_ONLY, t, c);
    GatherSnoc(CleanOne, Complete(LF_ONLY, s), Open(LF_ONLY, s));
    GatherSnoc(CleanOne, Complete(LF_ONLY, t), Open(LF_ONLY, t));
  }

  lemma CleanLf(s: string, t: string)
    requires SameClean(s, DropCr(t))
    ensures SameClean(s + ['\n'], t + ['\n'])
  {
    var u := DropCr(t);
    CleanChar(s, u, '\n');
    if u != t {
      assert t == u + ['\r'];
      CompleteSnoc(LF_ONLY, u, '\r');
      CompleteSnoc(LF_ONLY, u, '\n');
      CompleteSnoc(LF_ONLY, t, '\n');
      GatherSnoc(CleanOne, Complete(LF_ONLY, u), Open(LF_ONLY, u));
      GatherSnoc(CleanOne, Complete(LF_ONLY, u), Open(LF_ONLY, t));
      CleanTrailingCr(Open(LF_ONLY, u));
    }
  }

  /** Replacing CRLF changes neither the cleaned lines nor the unfinished one. */
  lemma {:induction false} CrLfInvisible(s: string)
    ensures SameClean(CrLfToLf(s), s)
    decreases |s|
  {
    if s != "" {
      var t, c := s[..|s| - 1], s[|s| - 1];
      assert s == t + [c];
      if c == '\n' {
        CrLfInvisible(DropCr(t));
        CleanLf(CrLfToLf(DropCr(t)), t);
      } else {
        CrLfInvisible(t);
        CleanChar(CrLfToLf(t), t, c);
      }
    }
  }

  lemma SplitLast(complete: string, rest: string)
    requires Free(LF_ONLY, rest)
    ensures Complete(LF_ONLY, complete + "\n" + rest) == SplitLf(complete)
    ensures Open(LF_ONLY, complete + "\n" + rest) == rest
  {
    CompleteSnoc(LF_ONLY, complete, '\n');
    CompleteConcat(LF_ONLY, complete + ['\n'], rest);
    assert "" + rest == rest;
    FreeIsOpen(LF_ONLY, rest);
    assert SplitLf(complete) + [] == SplitLf(complete);
  }

  // ---------------------------------------------------------------- the buffer

  class UartStreamParser {
    var buffer: string
    /** Everything ingested, and everything extracted, since the last purge. */
    ghost var history: string
    ghost var extracted: seq<string>

    ghost predicate Valid()
      reads this
    {
      && extracted + Clean(Complete(LF_ONLY, buffer)) == Clean(Complete(LF_ONLY, history))
      && Open(LF_ONLY, buffer) == Open(LF_ONLY, history)
    }

    constructor ()
      ensures Valid() && history == "" && extracted == []
    {
      buffer, history, extracted := "", "", [];
    }

    method Ingest(text: string)
      requires Valid()
      modifies this
      ensures Valid() && history == old(history) + text && extracted == old(extracted)
    {
      CompleteConcat(LF_ONLY, buffer, text);
      CompleteConcat(LF_ONLY, history, text);
      ghost var more := Complete(LF_ONLY, Open(LF_ONLY, buffer) + text);
      GatherConcat(CleanOne, Complete(LF_ONLY, buffer), more);
      GatherConcat(CleanOne, Complete(LF_ONLY, history), more);
      Assoc(extracted, Clean(Complete(LF_ONLY, buffer)), Clean(more));
      buffer := buffer + text;
      history := history + text;
    }

    method ClearBuffer()
      modifies this
      ensures Valid() && history == "" && extracted == []
    {
      buffer, history, extracted := "", "", [];
    }

    /** However ingests and extractions interleave, what came out so far is every finished line of the text. */
    method ExtractLines() returns (lines: seq<string>)
      requires Valid()
      modifies this
      ensures Valid() && history == old(history)
      ensures extracted == old(extracted) + lines
      ensures extracted == Clean(Complete(LF_ONLY, history)) && buffer == Open(LF_ONLY, history)
    {
      CrLfInvisible(buffer);
      lines, buffer := SplitOff(CrLfToLf(buffer));
      extracted := extracted + lines;
      OpenIsFree(LF_ONLY, history);
      FreeIsOpen(LF_ONLY, buffer);
      assert extracted + [] == extracted;
    }
  }

  /** `rsplit('\n', 1)` when there is an LF, then `split('\n')` and the yield loop. */
  method SplitOff(text: string) returns (lines: seq<string>, rest: string)
    ensures lines == Clean(Complete(LF_ONLY, text)) && rest == Open(LF_ONLY, text)
  {
    var i := |text|;
    while i > 0 && text[i - 1] != '\n'
      invariant 0 <= i <= |text| && Free(LF_ONLY, text[i..])
    {
      i := i - 1;
    }
    rest := text[i..];
    if i > 0 {
      var complete := text[..i - 1];
      assert text == complete + "\n" + rest;
      SplitLast(complete, rest);
      lines := CleanAll(SplitLf(complete));
    } else {
      assert text[0..] == text;
      FreeIsOpen(LF_ONLY, text);
      lines := [];
    }
  }

  method CleanAll(pieces: seq<string>) returns (lines: seq<string>)
    ensures lines == Clean(pieces)
  {
    lines := [];
    assert pieces[..0] == [];
    for k := 0 to |pieces|
      invariant lines == Clean(pieces[..k])
    {
      assert pieces[..k + 1] == pieces[..k] + [pieces[k]];
      GatherSnoc(CleanOne, pieces[..k], pieces[k]);
      var cleanLine := Strip(pieces[k]);
      if cleanLine != "" {
        lines := lines + [cleanLine];
      } else {
        assert lines + [] == lines;
      }
    }
    assert pieces[..|pieces|] == pieces;
  }

  // ---------------------------------------------------------------- agreement with the event stream

  /** The lines a piece shows when CR breaks it too. */
  function CrLines(piece: string): seq<string> {
    Clean(Complete(CR_ONLY, piece)) + CleanOne(Open(CR_ONLY, piece))
  }

  /** No CR separates two visible texts of one line, and the unfinished line has closed none yet. */
  predicate Tame(text: string) {
    && (forall i :: 0 <= i < |Complete(LF_ONLY, text)| ==> |CrLines(Complete(LF_ONLY, text)[i])| <= 1)
    && Clean(Complete(CR_ONLY, Open(LF_ONLY, text))) == []
  }

  lemma CrSnoc(p: string, c: char)
    ensures Clean(Complete(CR_ONLY, p + [c])) == if c == '\r' then CrLines(p) else Clean(Complete(CR_ONLY, p))
    ensures Open(CR_ONLY, p + [c]) == if c == '\r' then "" else Open(CR_ONLY, p) + [c]
  {
    CompleteSnoc(CR_ONLY, p, c);
    GatherSnoc(CleanOne, Complete(CR_ONLY, p), Open(CR_ONLY, p));
  }

  /** Splitting at CR or LF is splitting at LF, then each piece at CR. */
  lemma {:induction false} TwoLevelSplit(text: string)
    ensures Clean(Complete(CR_OR_LF, text)) ==
            Gather(CrLines, Complete(LF_ONLY, text)) + Clean(Complete(CR_ONLY, Open(LF_ONLY, text)))
    ensures Open(CR_OR_LF, text) == Open(CR_ONLY, Open(LF_ONLY, text))
    decreases |text|
  {
    if text != "" {
      var t, c := text[..|text| - 1], text[|text| - 1];
      assert text == t + [c];
      TwoLevelSplit(t);
      TwoLevelStep(t, c);
    }
  }

  lemma NothingBehind(lines: seq<string>)
    ensures lines + Clean(Complete(CR_ONLY, "")) == lines && Open(CR_ONLY, "") == ""
  {
    assert Clean(Complete(CR_ONLY, "")) == [];
  }

  lemma TwoLevelStep(t: string, c: char)
    requires Clean(Complete(CR_OR_LF, t)) ==
             Gather(CrLines, Complete(LF_ONLY, t)) + Clean(Complete(CR_ONLY, Open(LF_ONLY, t)))
    requires Open(CR_OR_LF, t) == Open(CR_ONLY, Open(LF_ONLY, t))
    ensures Clean(Complete(CR_OR_LF, t + [c])) ==
            Gather(CrLines, Complete(LF_ONLY, t + [c])) + Clean(Complete(CR_ONLY, Open(LF_ONLY, t + [c])))
    ensures Open(CR_OR_LF, t + [c]) == Open(CR_ONLY, Open(LF_ONLY, t + [c]))
  {
    var o, g := Open(LF_ONLY, t), Gather(CrLines, Complete(LF_ONLY, t));
    CompleteSnoc(CR_OR_LF, t, c);
    CompleteSnoc(LF_ONLY, t, c);
    GatherSnoc(CleanOne, Complete(CR_OR_LF, t), Open(CR_OR_LF, t));
    Assoc(g, Clean(Complete(CR_ONLY, o)), CleanOne(Open(CR_ONLY, o)));
    if c == '\n' {
      GatherSnoc(CrLines, Complete(LF_ONLY, t), o);
      NothingBehind(g + CrLines(o));
    } else {
      CrSnoc(o, c);
    }
  }

  lemma EmptyPiece()
    ensures Open(CR_ONLY, "") == "" && CleanOne("") == [] && CrLines("") == []
  {
    assert Strip("") == "";
  }

  /** When only the unfinished CR piece shows anything, everything in front of it is blank. */
  lemma {:induction false} FrontIsBlank(p: string) returns (front: string)
    requires Clean(Complete(CR_ONLY, p)) == []
    ensures p == front + Open(CR_ONLY, p) && Blank(front)
    decreases |p|
  {
    EmptyPiece();
    hide Strip, Clean, Complete, Open;
    if p == "" {
      front := "";
    } else {
      var q, c := p[..|p| - 1], p[|p| - 1];
      assert p == q + [c];
      CrSnoc(q, c);
      front := FrontIsBlank(q);
      var o := Open(CR_ONLY, q);
      if c == '\r' {
        BlankStripsToNothing(o);
        BlankConcat(front, o);
        BlankConcat(q, [c]);
        front := p;
      } else {
        Assoc(front, o, [c]);
      }
    }
  }

  lemma BlankConcat(a: string, b: string)
    ensures Blank(a + b) <==> Blank(a) && Blank(b)
  {
    if Blank(a + b) {
      assert forall i :: 0 <= i < |a| ==> (a + b)[i] == a[i];
      assert forall i :: 0 <= i < |b| ==> (a + b)[|a| + i] == b[i];
    }
  }

  /** A piece whose CRs leave at most one visible part reads the same with and without breaking at CR. */
  lemma {:induction false} OneVisiblePart(p: string)
    ensures |CleanOne(p)| <= |CrLines(p)|
    ensures |CrLines(p)| <= 1 ==> CrLines(p) == CleanOne(p)
    decreases |p|
  {
    EmptyPiece();
    hide Strip, Clean, Complete, Open, CleanOne;
    if p != "" {
      var q, c := p[..|p| - 1], p[|p| - 1];
      assert p == q + [c];
      OneVisiblePart(q);
      CrSnoc(q, c);
      if c == '\r' {
        CleanTrailingCr(q);
        assert CrLines(q) + [] == CrLines(q);
      } else {
        OneVisibleStep(q, c);
      }
    }
  }

  lemma OneVisibleStep(q: string, c: char)
    requires c != '\r'
    requires |CleanOne(q)| <= |CrLines(q)| && (|CrLines(q)| <= 1 ==> CrLines(q) == CleanOne(q))
    ensures |CleanOne(q + [c])| <= |CrLines(q + [c])|
    ensures |CrLines(q + [c])| <= 1 ==> CrLines(q + [c]) == CleanOne(q + [c])
  {
    var o := Open(CR_ONLY, q);
    CrSnoc(q, c);
    BlankStripsToNothing(o + [c]);
    BlankConcat(o, [c]);
    if Blank(o + [c]) {
      StripIgnoresBlank(q, [c]);
      BlankStripsToNothing(o);
    } else if Clean(Complete(CR_ONLY, q)) == [] {
      OnlyOpenVisible(q, c);
    }
  }

  lemma OnlyOpenVisible(q: string, c: char)
    requires Clean(Complete(CR_ONLY, q)) == []
    ensures CleanOne(q + [c]) == CleanOne(Open(CR_ONLY, q) + [c])
  {
    var o := Open(CR_ONLY, q);
    var front := FrontIsBlank(q);
    Assoc(front, o, [c]);
    StripIgnoresBlank(front, o + [c]);
  }

  lemma {:induction false} CountLines(pieces: seq<string>)
    ensures |Clean(pieces)| <= |Gather(CrLines, pieces)|
    ensures |Clean(pieces)| == |Gather(CrLines, pieces)| ==>
              forall i :: 0 <= i < |pieces| ==> |CrLines(pieces[i])| <= 1
  {
    if pieces != [] {
      var init := pieces[..|pieces| - 1];
      CountLines(init);
      OneVisiblePart(pieces[|pieces| - 1]);
      assert forall i :: 0 <= i < |init| ==> init[i] == pieces[i];
    }
  }

  /** The parser and the event stream show the same lines exactly on tame text. */
  lemma AgreesWithEventStream(text: string)
    ensures Clean(Complete(LF_ONLY, text)) == Clean(Complete(CR_OR_LF, text)) <==> Tame(text)
  {
    var pieces := Complete(LF_ONLY, text);
    TwoLevelSplit(text);
    CountLines(pieces);
    if Tame(text) {
      forall i | 0 <= i < |pieces| ensures CleanOne(pieces[i]) == CrLines(pieces[i]) {
        OneVisiblePart(pieces[i]);
      }
      GatherSame(CleanOne, CrLines, pieces);
      assert Clean(pieces) + [] == Clean(pieces);
    }
  }

  /** Every CR is directly followed by LF. */
  predicate CrOnlyBeforeLf(text: string) {
    forall i :: 0 <= i < |text| && text[i] == '\r' ==> i + 1 < |text| && text[i + 1] == '\n'
  }

  /** Inside `t` every CR is directly followed by LF; the last character may still be a CR. */
  predicate CrInside(t: string) {
    forall i :: 0 <= i < |t| - 1 && t[i] == '\r' ==> t[i + 1] == '\n'
  }

  predicate EndsWithCr(s: string) {
    s != "" && s[|s| - 1] == '\r'
  }

  lemma CrInsideFront(u: string, c: char)
    requires CrInside(u + [c])
    ensures CrInside(u) && (EndsWithCr(u) ==> c == '\n')
  {
    var t := u + [c];
    forall i | 0 <= i < |u| - 1 && u[i] == '\r' ensures u[i + 1] == '\n' {
      assert t[i] == u[i] && t[i + 1] == u[i + 1];
    }
    if EndsWithCr(u) {
      assert t[|u| - 1] == '\r' && t[|u|] == c;
    }
  }

  /** What one more character does to an unfinished line that does not end in CR. */
  lemma DropCrSnoc(o: string, c: char)
    requires Free(CR_ONLY, DropCr(o)) && !EndsWithCr(o)
    ensures Free(CR_ONLY, DropCr(o + [c])) && (EndsWithCr(o + [c]) <==> c == '\r')
  {
    assert (o + [c])[..|o|] == o;
  }

  lemma {:induction false} PiecesKeepCrLast(t: string)
    requires CrInside(t)
    ensures forall i :: 0 <= i < |Complete(LF_ONLY, t)| ==> Free(CR_ONLY, DropCr(Complete(LF_ONLY, t)[i]))
    ensures Free(CR_ONLY, DropCr(Open(LF_ONLY, t)))
    ensures EndsWithCr(t) <==> EndsWithCr(Open(LF_ONLY, t))
    decreases |t|
  {
    if t != "" {
      var u, c := t[..|t| - 1], t[|t| - 1];
      assert t == u + [c];
      CrInsideFront(u, c);
      PiecesKeepCrLast(u);
      CompleteSnoc(LF_ONLY, u, c);
      if c != '\n' {
        DropCrSnoc(Open(LF_ONLY, u), c);
      }
    }
  }

  lemma CrLastIsOneLine(p: string)
    requires Free(CR_ONLY, DropCr(p))
    ensures |CrLines(p)| <= 1
  {
    var d := DropCr(p);
    FreeIsOpen(CR_ONLY, d);
    assert Clean([]) == [];
    if d != p {
      assert p == d + ['\r'];
      CrSnoc(d, '\r');
      assert CleanOne("") == [];
    }
  }

  /** With CRLF line ends, parser and event stream agree on every text. */
  lemma CrLfTextIsTame(text: string)
    requires CrOnlyBeforeLf(text)
    ensures Tame(text) && Clean(Complete(LF_ONLY, text)) == Clean(Complete(CR_OR_LF, text))
  {
    PiecesKeepCrLast(text);
    var pieces, o := Complete(LF_ONLY, text), Open(LF_ONLY, text);
    forall i | 0 <= i < |pieces| ensures |CrLines(pieces[i])| <= 1 {
      CrLastIsOneLine(pieces[i]);
    }
    assert DropCr(o) == o;
    FreeIsOpen(CR_ONLY, o);
    assert Clean([]) == [];
    AgreesWithEventStream(text);
  }

  /** A bare CR between two words: the event stream shows two lines, the parser one. */
  lemma BareCrDisagrees()
    ensures Clean(Complete(LF_ONLY, "a\rb\n")) != Clean(Complete(CR_OR_LF, "a\rb\n"))
  {
    BareCr();
    hide Clean, Complete, CrLines;
    var text := "a\rb\n";
    AgreesWithEventStream(text);
    assert |CrLines(Complete(LF_ONLY, text)[0])| == 2;
  }

  lemma BareCr()
    ensures Complete(LF_ONLY, "a\rb\n") == ["a\rb"] && |CrLines("a\rb")| == 2
  {
    assert "a\rb\n" == "a\rb" + "\n" + "";
    var p := "a\rb";
    assert Free(LF_ONLY, p);
    SplitFirst(p, "");
    assert Complete(LF_ONLY, "a\rb\n")[0] == p;
    assert p == ("a" + ['\r']) + ['b'];
    CrSnoc("a" + ['\r'], 'b');
    CrSnoc("a", '\r');
    FreeIsOpen(CR_ONLY, "a");
    assert Clean([]) == [] && CleanOne("a") == ["a"] && CleanOne("b") == ["b"];
    assert "" + ['b'] == "b";
  }
}
