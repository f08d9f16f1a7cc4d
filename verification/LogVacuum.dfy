/** `HostSideBuffer`: tailing a growing remote log line by line into host memory. */
module LogVacuum {
  import opened Sequences
  import opened Text
  import opened UartParser

  /** What `tail` prints for complete lines. */
  function Render(lines: seq<string>): string {
    if lines == [] then "" else Render(lines[..|lines| - 1]) + lines[|lines| - 1] + "\n"
  }

  function Visible(line: string): seq<string> {
    if Strip(line) == "" then [] else [line]
  }

  /** `[l for l in stdout.strip().split('\n') if l.strip()]`. */
  function NewLines(stdout: string): seq<string> {
    Gather(Visible, SplitLf(Strip(stdout)))
  }

  /** Nothing in the poll is blank, and its two ends are not trimmed. */
  predicate Untrimmed(lines: seq<string>) {
    && (forall i :: 0 <= i < |lines| ==> !Blank(lines[i]))
    && (lines != [] ==> StartsSolid(lines[0]) && EndsSolid(lines[|lines| - 1]))
  }

  lemma {:induction false} SplitRendered(lines: seq<string>)
    requires NoLf(lines)
    ensures Complete(LF_ONLY, Render(lines)) == lines && Open(LF_ONLY, Render(lines)) == ""
  {
    if lines != [] {
      var init, l := lines[..|lines| - 1], lines[|lines| - 1];
      assert forall i :: 0 <= i < |init| ==> init[i] == lines[i];
      SplitRendered(init);
      SplitOneMore(Render(init), l);
      assert lines == init + [l];
    }
  }

  lemma SplitOneMore(r: string, l: string)
    requires Free(LF_ONLY, l) && Open(LF_ONLY, r) == ""
    ensures Complete(LF_ONLY, r + l + "\n") == Complete(LF_ONLY, r) + [l] && Open(LF_ONLY, r + l + "\n") == ""
  {
    CompleteConcat(LF_ONLY, r, l);
    assert "" + l == l && Complete(LF_ONLY, r) + [] == Complete(LF_ONLY, r);
    FreeIsOpen(LF_ONLY, l);
    CompleteSnoc(LF_ONLY, r + l, '\n');
  }

  lemma {:induction false} GatherVisible(pieces: seq<string>)
    ensures forall i :: 0 <= i < |Gather(Visible, pieces)| ==> !Blank(Gather(Visible, pieces)[i])
  {
    if pieces != [] {
      GatherVisible(pieces[..|pieces| - 1]);
      BlankStripsToNothing(pieces[|pieces| - 1]);
    }
  }

  /** What a poll yields is never blank, and its two ends are never trimmable. */
  lemma NewLinesUntrimmed(stdout: string)
    ensures Untrimmed(NewLines(stdout))
  {
    var s := Strip(stdout);
    StripTrims(stdout);
    GatherVisible(SplitLf(s));
    if s == "" {
      assert SplitLf(s) == [""] && Visible("") == [];
      GatherSnoc(Visible, [], "");
      assert [] + [""] == [""];
    } else {
      LastPieceVisible(s);
      FirstPieceVisible(s);
    }
  }

  lemma LastPieceVisible(s: string)
    requires EndsSolid(s)
    ensures var r := Gather(Visible, SplitLf(s)); r != [] && EndsSolid(r[|r| - 1])
  {
    var o := Open(LF_ONLY, s);
    OpenIsFree(LF_ONLY, s);
    assert EndsSolid(o);
    assert !Blank(o);
    BlankStripsToNothing(o);
    GatherSnoc(Visible, Complete(LF_ONLY, s), o);
  }

  lemma FirstPieceVisible(s: string)
    requires StartsSolid(s)
    ensures var r := Gather(Visible, SplitLf(s)); r != [] && StartsSolid(r[0])
  {
    var i := 0;
    while i < |s| && s[i] != '\n'
      invariant 0 <= i <= |s| && Free(LF_ONLY, s[..i])
    {
      i := i + 1;
    }
    var first := s[..i];
    assert StartsSolid(first) && !Blank(first);
    BlankStripsToNothing(first);
    var more: seq<string>;
    if i < |s| {
      assert s == first + "\n" + s[i + 1..];
      SplitFirst(first, s[i + 1..]);
      more := SplitLf(s[i + 1..]);
      assert SplitLf(s) == [first] + more;
    } else {
      assert first == s;
      FreeIsOpen(LF_ONLY, s);
      more := [];
      assert SplitLf(s) == [first] + more;
    }
    GatherConcat(Visible, [first], more);
    GatherSnoc(Visible, [], first);
    assert [] + [first] == [first];
  }

  lemma SolidIsStripped(s: string)
    requires StartsSolid(s) && EndsSolid(s)
    ensures Strip(s + "\n") == s
  {
    assert (s + "\n")[..|s|] == s;
    assert StripRight(s + "\n") == s;
  }

  lemma {:induction false} GatherAllVisible(lines: seq<string>)
    requires forall i :: 0 <= i < |lines| ==> !Blank(lines[i])
    ensures Gather(Visible, lines) == lines
  {
    if lines != [] {
      var init, l := lines[..|lines| - 1], lines[|lines| - 1];
      assert forall i :: 0 <= i < |init| ==> init[i] == lines[i];
      GatherAllVisible(init);
      BlankStripsToNothing(l);
      assert lines == init + [l];
    }
  }

  lemma {:induction false} RenderStarts(lines: seq<string>)
    requires lines != [] && StartsSolid(lines[0])
    ensures StartsSolid(Render(lines))
  {
    if |lines| > 1 {
      RenderStarts(lines[..|lines| - 1]);
    } else {
      assert Render(lines[..0]) == "" && "" + lines[0] == lines[0];
    }
  }

  /** A poll is taken over line for line exactly when none of it is blank and its ends are not trimmable. */
  lemma PollIsExact(lines: seq<string>)
    requires NoLf(lines)
    ensures NewLines(Render(lines)) == lines <==> Untrimmed(lines)
  {
    NewLinesUntrimmed(Render(lines));
    if Untrimmed(lines) {
      if lines == [] {
        assert SplitLf("") == [""] && Visible("") == [] && [] + [""] == [""];
        GatherSnoc(Visible, [], "");
      } else {
        UntrimmedPoll(lines);
      }
    }
  }

  lemma UntrimmedPoll(lines: seq<string>)
    requires NoLf(lines) && lines != [] && Untrimmed(lines)
    ensures NewLines(Render(lines)) == lines
  {
    SolidEndsPoll(lines);
    GatherAllVisible(lines);
  }

  /** With solid ends nothing is trimmed; only blank lines are dropped. */
  lemma SolidEndsPoll(lines: seq<string>)
    requires NoLf(lines) && lines != [] && StartsSolid(lines[0]) && EndsSolid(lines[|lines| - 1])
    ensures NewLines(Render(lines)) == Gather(Visible, lines)
    ensures var s := Render(lines[..|lines| - 1]) + lines[|lines| - 1];
            StartsSolid(s) && EndsSolid(s) && Strip(Render(lines)) == s
  {
    var init, l := lines[..|lines| - 1], lines[|lines| - 1];
    var s := Render(init) + l;
    assert Render(lines) == s + "\n";
    RenderStarts(lines);
    assert s[0] == Render(lines)[0];
    SolidIsStripped(s);
    SplitRendered(lines);
    CompleteSnoc(LF_ONLY, s, '\n');
  }

  // ---------------------------------------------------------------- what a poll takes of any log

  function TrimLast(v: seq<string>): seq<string> {
    if v == [] then [] else v[|v| - 1 := StripRight(v[|v| - 1])]
  }

  /** The lines of a poll: the first loses its indentation, the last its trailing white space. */
  function TrimEnds(v: seq<string>): seq<string> {
    if v == [] then [] else TrimLast(v)[0 := StripLeft(TrimLast(v)[0])]
  }

  lemma {:induction false} RenderCons(lines: seq<string>)
    requires lines != []
    ensures Render(lines) == lines[0] + "\n" + Render(lines[1..])
  {
    if |lines| == 1 {
      assert lines[..0] == [] && lines[1..] == [];
      assert "" + lines[0] + "\n" == lines[0] + "\n" + "";
    } else {
      var init, l := lines[..|lines| - 1], lines[|lines| - 1];
      RenderCons(init);
      RenderSnoc(init[1..], l);
      assert init[1..] + [l] == lines[1..] && init[0] == lines[0];
      Shift(lines[0], "\n", Render(init[1..]), l);
    }
  }

  lemma RenderSnoc(lines: seq<string>, l: string)
    ensures Render(lines + [l]) == Render(lines) + l + "\n"
  {
    assert (lines + [l])[..|lines|] == lines;
  }

  lemma Shift<T>(a: seq<T>, nl: seq<T>, r: seq<T>, l: seq<T>)
    ensures (a + nl + r) + l + nl == a + nl + (r + l + nl)
  {
  }

  lemma FirstVisible(lines: seq<string>)
    requires lines != []
    ensures Gather(Visible, lines) == Visible(lines[0]) + Gather(Visible, lines[1..])
  {
    Split1(lines);
    GatherConcat(Visible, [lines[0]], lines[1..]);
    GatherSnoc(Visible, [], lines[0]);
    assert [] + [lines[0]] == [lines[0]];
  }

  lemma BlankLast(lines: seq<string>)
    requires lines != [] && Blank(lines[|lines| - 1])
    ensures NewLines(Render(lines)) == NewLines(Render(lines[..|lines| - 1]))
    ensures Gather(Visible, lines) == Gather(Visible, lines[..|lines| - 1])
  {
    var init, l := lines[..|lines| - 1], lines[|lines| - 1];
    BlankTail(Render(init), l);
    BlankStripsToNothing(l);
    assert Gather(Visible, init) + [] == Gather(Visible, init);
  }

  lemma BlankTail(r: string, l: string)
    requires Blank(l)
    ensures Strip(r + l + "\n") == Strip(r)
  {
    assert Blank(l + "\n");
    StripIgnoresBlank(r, l + "\n");
    Assoc(r, l, "\n");
  }

  lemma BlankFirst(lines: seq<string>)
    requires lines != [] && Blank(lines[0])
    ensures NewLines(Render(lines)) == NewLines(Render(lines[1..]))
    ensures Gather(Visible, lines) == Gather(Visible, lines[1..])
  {
    RenderCons(lines);
    assert Blank(lines[0] + "\n");
    StripIgnoresBlank(lines[0] + "\n", Render(lines[1..]));
    BlankStripsToNothing(lines[0]);
    FirstVisible(lines);
  }

  lemma {:induction false} StripKeepsFree(s: string)
    requires Free(LF_ONLY, s)
    ensures Free(LF_ONLY, StripLeft(s)) && Free(LF_ONLY, StripRight(s))
  {
    if s != "" {
      StripKeepsFree(s[1..]);
      StripKeepsFree(s[..|s| - 1]);
    }
  }

  lemma StripLeftKeeps(a: string, b: string)
    requires !Blank(a)
    ensures StripLeft(a + b) == StripLeft(a) + b
  {
    if IsSpace(a[0]) {
      assert (a + b)[1..] == a[1..] + b && !Blank(a[1..]);
      StripLeftKeeps(a[1..], b);
    }
  }

  lemma SolidEnd(l: string)
    requires !Blank(l)
    ensures StartsSolid(StripLeft(l)) && EndsSolid(StripRight(l)) && !Blank(StripRight(l))
  {
    StripLeftStarts(l);
    StripLeftSolid(l);
    StripRightSolid(l);
    StripRightEnds(l);
  }

  lemma OneLinePoll(l: string)
    requires Free(LF_ONLY, l) && !Blank(l)
    ensures NewLines(Render([l])) == [Strip(l)]
  {
    var one := [Strip(l)];
    assert Render([l]) == "" + l + "\n" == l + "\n" by { assert [l][..0] == []; }
    assert Render(one) == "" + Strip(l) + "\n" == Strip(l) + "\n" by { assert one[..0] == []; }
    StripIgnoresBlank(l, "\n");
    SolidEnd(l);
    StripTrims(l);
    BlankStripsToNothing(l);
    StripKeepsFree(l);
    StripKeepsFree(StripRight(l));
    SolidIsStripped(Strip(l));
    SolidEndsPoll(one);
    assert !Blank(Strip(l));
    GatherAllVisible(one);
  }

  lemma RenderEnds(f: string, mid: seq<string>, l: string)
    ensures Render([f] + mid + [l]) == f + "\n" + Render(mid) + (l + "\n")
  {
    var front := [f] + mid;
    assert (front + [l])[..|front|] == front && front[1..] == mid;
    RenderCons(front);
    Assoc(Render(front), l, "\n");
  }

  lemma StripRightEnd(head: string, l: string)
    requires !Blank(l)
    ensures StripRight(head + (l + "\n")) == head + StripRight(l)
  {
    SolidInside(l, "\n");
    StripRightBlank(l, "\n");
    StripRightKeeps(head, l + "\n");
  }

  lemma Regroup<T>(a: seq<T>, b: seq<T>, c: seq<T>, d: seq<T>)
    ensures a + b + c + d == a + (b + (c + d))
  {
  }

  /** Both ends visible: the text after stripping is that of the trimmed lines. */
  lemma StripTwoEnds(f: string, nl: string, mid: string, l: string)
    requires !Blank(f) && !Blank(l) && nl == "\n"
    ensures Strip(f + nl + mid + (l + nl)) == StripLeft(f) + nl + (mid + StripRight(l))
  {
    var r := StripRight(l);
    StripRightEnd(f + nl + mid, l);
    Regroup(f, nl, mid, r);
    StripLeftKeeps(f, nl + (mid + r));
    Assoc(StripLeft(f), nl, mid + r);
  }

  lemma SolidInside(l: string, more: string)
    requires !Blank(l)
    ensures !Blank(l + more)
  {
    var i :| 0 <= i < |l| && !IsSpace(l[i]);
    assert (l + more)[i] == l[i];
  }

  lemma TwoEndsPoll(f: string, mid: seq<string>, l: string)
    requires !Blank(f) && !Blank(l) && NoLf([f] + mid + [l])
    ensures NewLines(Render([f] + mid + [l])) == [StripLeft(f)] + Gather(Visible, mid) + [StripRight(l)]
    ensures Gather(Visible, [f] + mid + [l]) == [f] + Gather(Visible, mid) + [l]
  {
    hide StripLeft, StripRight, Gather, Render, Strip;
    var lines, f', l' := [f] + mid + [l], StripLeft(f), StripRight(l);
    var lines' := [f'] + mid + [l'];
    assert f == lines[0] && l == lines[|lines| - 1] && forall k :: 0 <= k < |mid| ==> mid[k] == lines[k + 1];
    StripKeepsFree(f);
    StripKeepsFree(l);
    SolidEnd(f);
    SolidEnd(l);
    assert NoLf(lines') && lines'[0] == f' && lines'[|lines'| - 1] == l' && lines'[..|lines'| - 1] == [f'] + mid;
    SolidEndsPoll(lines');
    assert ([f'] + mid)[1..] == mid;
    RenderCons([f'] + mid);
    RenderEnds(f, mid, l);
    StripTwoEnds(f, "\n", Render(mid), l);
    assert Strip(Render(lines')) == f' + "\n" + Render(mid) + l';
    Assoc(f' + "\n", Render(mid), l');
    VisibleEnds(f, mid, l);
    VisibleEnds(f', mid, l');
  }

  lemma VisibleEnds(f: string, mid: seq<string>, l: string)
    requires !Blank(f) && !Blank(l)
    ensures Gather(Visible, [f] + mid + [l]) == [f] + Gather(Visible, mid) + [l]
  {
    BlankStripsToNothing(f);
    BlankStripsToNothing(l);
    GatherSnoc(Visible, [f] + mid, l);
    GatherConcat(Visible, [f], mid);
    GatherSnoc(Visible, [], f);
    assert [] + [f] == [f];
  }

  lemma TrimTwoEnds(f: string, mid: seq<string>, l: string)
    ensures TrimEnds([f] + mid + [l]) == [StripLeft(f)] + mid + [StripRight(l)]
  {
    assert TrimLast([f] + mid + [l]) == [f] + mid + [StripRight(l)];
  }

  /** What a poll takes of any log: its visible lines, the first and the last of them trimmed. */
  lemma {:induction false} PollTakes(lines: seq<string>)
    requires NoLf(lines)
    ensures NewLines(Render(lines)) == TrimEnds(Gather(Visible, lines))
    decreases |lines|
  {
    if lines == [] {
      assert SplitLf("") == [""] && Visible("") == [] && [] + [""] == [""];
      GatherSnoc(Visible, [], "");
    } else if Blank(lines[|lines| - 1]) {
      BlankLast(lines);
      PollTakes(lines[..|lines| - 1]);
    } else if Blank(lines[0]) {
      BlankFirst(lines);
      PollTakes(lines[1..]);
    } else if |lines| == 1 {
      assert lines == [lines[0]];
      OneLinePoll(lines[0]);
      GatherAllVisible(lines);
      assert TrimEnds(lines) == [Strip(lines[0])];
    } else {
      var f, mid, l := lines[0], lines[1..|lines| - 1], lines[|lines| - 1];
      assert lines == [f] + mid + [l];
      TwoEndsPoll(f, mid, l);
      TrimTwoEnds(f, Gather(Visible, mid), l);
    }
  }

  lemma {:induction false} VisibleNoMore(lines: seq<string>)
    ensures |Gather(Visible, lines)| <= |lines|
  {
    if lines != [] {
      VisibleNoMore(lines[..|lines| - 1]);
    }
  }

  // ---------------------------------------------------------------- the polling daemon

  datatype Poll = Answered(ok: bool) | ConnectionLost | OtherFault

  /** One turn of the loop: what the remote log holds by then, and how the poll goes. */
  datatype Turn = Turn(remote: seq<string>, poll: Poll)

  /** What `tail -n +k` prints for k = n + 1. */
  function Tail(remote: seq<string>, n: nat): seq<string> {
    if n <= |remote| then remote[n..] else []
  }

  /** The lines a turn adds to the buffer. */
  function Taken(turn: Turn, n: nat): seq<string> {
    if turn.poll == Answered(true) then NewLines(Render(Tail(turn.remote, n))) else []
  }

  /** Blank lines, if any, come last, and the visible ones in front of them have untrimmable ends. */
  predicate CleanTail(tail: seq<string>) {
    |Gather(Visible, tail)| <= |tail| && Untrimmed(tail[..|Gather(Visible, tail)|])
  }

  lemma TrimKeepsCount(v: seq<string>)
    ensures |TrimEnds(v)| == |v|
  {
  }

  lemma TakenIsUntrimmed(tail: seq<string>)
    requires NoLf(tail)
    ensures Untrimmed(TrimEnds(Gather(Visible, tail)))
  {
    PollTakes(tail);
    NewLinesUntrimmed(Render(tail));
  }

  lemma CleanIsVisible(tail: seq<string>, front: seq<string>)
    requires CleanTail(tail) && front == tail[..|Gather(Visible, tail)|]
    ensures Gather(Visible, tail) == front
  {
    var rest := tail[|front|..];
    assert tail == front + rest;
    GatherConcat(Visible, front, rest);
    GatherAllVisible(front);
  }

  /** A poll takes a beginning of the tail line for line exactly when the tail is clean. */
  lemma TakesBeginningIff(tail: seq<string>)
    requires NoLf(tail)
    ensures var v := NewLines(Render(tail)); |v| <= |tail| && (v == tail[..|v|] <==> CleanTail(tail))
  {
    var v := Gather(Visible, tail);
    PollTakes(tail);
    VisibleNoMore(tail);
    TrimKeepsCount(v);
    TakenIsUntrimmed(tail);
    if CleanTail(tail) {
      CleanIsVisible(tail, tail[..|v|]);
      UntrimmedStays(v);
    }
  }

  lemma UntrimmedStays(v: seq<string>)
    requires Untrimmed(v)
    ensures TrimEnds(v) == v
  {
    if v != [] {
      assert TrimLast(v) == v;
    }
  }

  class HostSideBuffer {
    var buffer: seq<string>
    var linesRead: nat
    var running: bool

    constructor ()
      ensures buffer == [] && linesRead == 0 && !running
    {
      buffer, linesRead, running := [], 0, false;
    }

    method Start()
      modifies this
      ensures running
      ensures old(running) ==> buffer == old(buffer) && linesRead == old(linesRead)
      ensures !old(running) ==> buffer == [] && linesRead == 0
    {
      if running {
        return;
      }
      buffer, linesRead, running := [], 0, true;
    }

    /** One turn of the loop, on any log. A lost transport ends the loop, not the data. */
    method PollOnce(turn: Turn)
      requires running
      modifies this
      ensures buffer == old(buffer) + Taken(turn, old(linesRead))
      ensures linesRead == old(linesRead) + |Taken(turn, old(linesRead))|
      ensures running <==> turn.poll.Answered?
    {
      var tail := Tail(turn.remote, linesRead);
      assert buffer + [] == buffer;
      match turn.poll
      case ConnectionLost =>
        running := false;
      case OtherFault =>
        running := false;
      case Answered(ok) =>
        var stdout := Render(tail);
        if ok && stdout != "" {
          var more := NewLines(stdout);
          buffer := buffer + more;
          linesRead := linesRead + |more|;
        } else if ok {
          NothingPrinted();
        }
    }

    /** The loop over any run of polls: it ends with the turns, or with the first that raises. */
    method PollLoop(turns: seq<Turn>)
      requires running
      modifies this
      ensures (buffer, linesRead) == Collect(turns, old(buffer), old(linesRead))
    {
      hide Taken;
      var i := 0;
      ghost var end := Collect(turns, buffer, linesRead);
      assert turns[0..] == turns;
      while i < |turns| && running
        invariant 0 <= i <= |turns|
        invariant running ==> Collect(turns[i..], buffer, linesRead) == end
        invariant !running ==> (buffer, linesRead) == end
        decreases |turns| - i
      {
        CollectTurn(turns, i, buffer, linesRead);
        PollOnce(turns[i]);
        i := i + 1;
      }
      assert turns[|turns|..] == [];
    }

    method Stop() returns (survived: seq<string>)
      modifies this`running
      ensures !running && survived == buffer
    {
      running := false;
      survived := buffer;
    }
  }

  lemma TakeOver(remote: seq<string>, n: nat, more: seq<string>)
    requires n <= |remote| && |more| <= |remote| - n
    ensures remote[..n] + more == remote[..n + |more|] <==> more == remote[n..][..|more|]
  {
    assert remote[..n + |more|] == remote[..n] + remote[n..][..|more|];
    if remote[..n] + more == remote[..n + |more|] {
      assert more == (remote[..n] + more)[n..];
      assert remote[n..][..|more|] == remote[..n + |more|][n..];
    }
  }

  lemma NothingPrinted()
    ensures NewLines("") == []
  {
    assert SplitLf("") == [""] && Visible("") == [] && [] + [""] == [""];
    GatherSnoc(Visible, [], "");
  }

  // ---------------------------------------------------------------- whole runs

  /** Buffer and line count after a run. */
  function Collect(turns: seq<Turn>, buf: seq<string>, n: nat): (seq<string>, nat)
    decreases turns
  {
    if turns == [] then (buf, n)
    else
      var more := Taken(turns[0], n);
      if turns[0].poll.Answered? then Collect(turns[1..], buf + more, n + |more|) else (buf + more, n + |more|)
  }

  lemma CollectTurn(turns: seq<Turn>, i: nat, buf: seq<string>, n: nat)
    requires i < |turns|
    ensures var more := Taken(turns[i], n);
            Collect(turns[i..], buf, n) ==
            if turns[i].poll.Answered? then Collect(turns[i + 1..], buf + more, n + |more|) else (buf + more, n + |more|)
  {
    hide Taken;
    assert turns[i..][0] == turns[i] && turns[i..][1..] == turns[i + 1..];
  }

  /** The log is append-only, in complete lines. */
  predicate Growing(log: seq<string>, turns: seq<Turn>)
    decreases turns
  {
    turns == [] || (log <= turns[0].remote && NoLf(turns[0].remote) && Growing(turns[0].remote, turns[1..]))
  }

  /** After every turn of the run the buffer is the first `n` lines of the log: nothing lost, repeated or reordered. */
  predicate ExactThroughout(turns: seq<Turn>, buf: seq<string>, n: nat)
    decreases turns
  {
    turns == []
    || (var buf', n' := buf + Taken(turns[0], n), n + |Taken(turns[0], n)|;
        && n' <= |turns[0].remote| && buf' == turns[0].remote[..n']
        && (turns[0].poll.Answered? ==> ExactThroughout(turns[1..], buf', n')))
  }

  /** Every good poll of the run finds a clean tail. */
  predicate CleanThroughout(turns: seq<Turn>, n: nat)
    decreases turns
  {
    turns == []
    || (&& (turns[0].poll == Answered(true) ==> CleanTail(Tail(turns[0].remote, n)))
        && (turns[0].poll.Answered? ==> CleanThroughout(turns[1..], n + |Taken(turns[0], n)|)))
  }

  lemma TurnIff(turn: Turn, buf: seq<string>, n: nat)
    requires NoLf(turn.remote) && n <= |turn.remote| && buf == turn.remote[..n]
    ensures var more := Taken(turn, n);
            && n + |more| <= |turn.remote|
            && (buf + more == turn.remote[..n + |more|] <==>
                  (turn.poll == Answered(true) ==> CleanTail(Tail(turn.remote, n))))
  {
    TailIsFree(turn.remote, n);
    TakesBeginningIff(turn.remote[n..]);
    TakeOver(turn.remote, n, Taken(turn, n));
    assert buf + [] == buf;
  }

  /** Over every run against an append-only log: delivery is exact throughout if and only if every poll finds a clean tail. */
  lemma {:induction false} ExactIffClean(log: seq<string>, turns: seq<Turn>, buf: seq<string>, n: nat)
    requires Growing(log, turns) && n <= |log| && buf == log[..n]
    ensures ExactThroughout(turns, buf, n) <==> CleanThroughout(turns, n)
    decreases turns
  {
    hide Taken, Tail, CleanTail, NoLf;
    if turns != [] {
      var remote, more := turns[0].remote, Taken(turns[0], n);
      assert buf == remote[..n];
      TurnIff(turns[0], buf, n);
      if buf + more == remote[..n + |more|] {
        ExactIffClean(remote, turns[1..], buf + more, n + |more|);
      }
    }
  }

  lemma TailIsFree(remote: seq<string>, n: nat)
    requires n <= |remote| && NoLf(remote)
    ensures NoLf(remote[n..])
  {
    assert forall i :: 0 <= i < |remote[n..]| ==> remote[n..][i] == remote[i + n];
  }

  /** Every line could be the first or the last of some poll. */
  predicate PollableLog(log: seq<string>) {
    NoLf(log) && forall i :: 0 <= i < |log| ==> StartsSolid(log[i]) && EndsSolid(log[i])
  }

  /** The log is append-only, in such lines. */
  predicate GrowingSolid(log: seq<string>, turns: seq<Turn>)
    decreases turns
  {
    turns == [] || (log <= turns[0].remote && PollableLog(turns[0].remote) && GrowingSolid(turns[0].remote, turns[1..]))
  }

  /** The log as of the last good poll before the run ends or is severed. */
  function LastGood(turns: seq<Turn>, sofar: seq<string>): seq<string>
    decreases turns
  {
    if turns == [] || !turns[0].poll.Answered? then sofar
    else LastGood(turns[1..], if turns[0].poll.ok then turns[0].remote else sofar)
  }

  /** On a log of untrimmable lines every run is clean, and ends with the whole log as of the last good poll. */
  lemma {:induction false} PollableRun(log: seq<string>, turns: seq<Turn>, buf: seq<string>, n: nat)
    requires GrowingSolid(log, turns) && n <= |log| && buf == log[..n]
    ensures CleanThroughout(turns, n)
    ensures Collect(turns, buf, n) == (LastGood(turns, buf), |LastGood(turns, buf)|)
    decreases turns
  {
    hide Taken, Tail, CleanTail, PollableLog;
    if turns != [] {
      var remote, buf', n' := turns[0].remote, buf + Taken(turns[0], n), n + |Taken(turns[0], n)|;
      assert buf == remote[..n];
      PollableTurn(turns[0], buf, n);
      assert |buf'| == n';
      if turns[0].poll.Answered? {
        PollableRun(remote, turns[1..], buf', n');
      }
    }
  }

  lemma PollableTurn(turn: Turn, buf: seq<string>, n: nat)
    requires PollableLog(turn.remote) && n <= |turn.remote| && buf == turn.remote[..n]
    ensures CleanTail(Tail(turn.remote, n))
    ensures var buf', n' := buf + Taken(turn, n), n + |Taken(turn, n)|;
            && n' <= |turn.remote| && buf' == turn.remote[..n']
            && buf' == if turn.poll == Answered(true) then turn.remote else buf
  {
    PollableTail(turn.remote, n);
    assert turn.remote[..n] + turn.remote[n..] == turn.remote && buf + [] == buf;
    assert turn.remote[..|turn.remote|] == turn.remote;
  }

  lemma PollableTail(remote: seq<string>, n: nat)
    requires n <= |remote| && PollableLog(remote)
    ensures NewLines(Render(remote[n..])) == remote[n..] && CleanTail(remote[n..])
  {
    var tail := remote[n..];
    assert forall i :: 0 <= i < |tail| ==> tail[i] == remote[i + n];
    assert Untrimmed(tail) && tail[..|tail|] == tail;
    GatherAllVisible(tail);
    PollIsExact(tail);
  }

  lemma VisibleLines(a: string, b: string)
    requires StartsSolid(a) && EndsSolid(b) && Free(LF_ONLY, a) && Free(LF_ONLY, b)
    ensures Gather(Visible, SplitLf(a + "\n" + ("" + "\n" + b))) == [a, b]
  {
    SplitFirst(a, "" + "\n" + b);
    SplitFirst("", b);
    FreeIsOpen(LF_ONLY, b);
    assert SplitLf(a + "\n" + ("" + "\n" + b)) == [a] + [""] + [b];
    assert !Blank(a) && !Blank(b);
    BlankStripsToNothing(a);
    BlankStripsToNothing(b);
    GatherSnoc(Visible, [a] + [""], b);
    GatherSnoc(Visible, [a], "");
    GatherSnoc(Visible, [], a);
    assert [] + [a] == [a] && Visible("") == [];
  }

  lemma RenderThree(a: string, m: string, b: string)
    ensures Render([a, m, b]) == a + "\n" + (m + "\n" + b) + "\n"
  {
    assert [a, m, b][..2] == [a, m] && [a, m][..1] == [a] && [a][..0] == [];
    assert Render([a]) == "" + a + "\n";
    assert Render([a, m]) == Render([a]) + m + "\n";
  }

  /** A blank line is not counted, so the next poll starts one line too early and repeats what it already has. */
  lemma BlankLineRepeats(a: string, b: string)
    requires StartsSolid(a) && EndsSolid(b) && StartsSolid(b) && Free(LF_ONLY, a) && Free(LF_ONLY, b)
    ensures var turn := Turn([a, "", b], Answered(true)); Collect([turn, turn], [], 0) == ([a, b, b], 3)
  {
    var log := [a, "", b];
    var turn := Turn(log, Answered(true));
    SecondPollRepeats(a, b);
    assert log[0..] == log;
    assert Taken(turn, 0) == [a, b] && Taken(turn, 2) == [b];
    TwoTurns(turn, [a, b], [b]);
    assert [a, b] + [b] == [a, b, b];
  }

  lemma TwoTurns(turn: Turn, first: seq<string>, second: seq<string>)
    requires turn.poll.Answered? && Taken(turn, 0) == first && Taken(turn, |first|) == second
    ensures Collect([turn, turn], [], 0) == (first + second, |first| + |second|)
  {
    hide Taken;
    var turns := [turn, turn];
    assert turns[0..] == turns && turns[1 + 1..] == [] && [] + first == first;
    CollectTurn(turns, 0, [], 0);
    assert Collect(turns, [], 0) == Collect(turns[1..], first, |first|);
    CollectTurn(turns, 1, first, |first|);
    assert Collect(turns[1..], first, |first|) == Collect([], first + second, |first| + |second|);
  }

  lemma SecondPollRepeats(a: string, b: string)
    requires StartsSolid(a) && EndsSolid(b) && StartsSolid(b) && Free(LF_ONLY, a) && Free(LF_ONLY, b)
    ensures var log := [a, "", b]; NewLines(Render(log)) == [a, b] && NewLines(Render(log[2..])) == [b]
  {
    var s := a + "\n" + ("" + "\n" + b);
    RenderThree(a, "", b);
    SolidIsStripped(s);
    VisibleLines(a, b);
    assert [a, "", b][2..] == [b];
    assert !Blank(b);
    PollIsExact([b]);
  }
}
