/** What the event stream says of the autoboot countdown, of boot lines and of milestones, in terms of the console text. */
module Announcements {
  import opened Sequences
  import opened Text
  import opened EventStream

  // ---------------------------------------------------------------- the autoboot countdown

  lemma {:induction false} PromptsHoldNoWindow(fed: seq<string>, c: string, ps: seq<Prompt>)
    ensures AutobootWindow !in Gather(PromptFilter(fed, c), ps)
  {
    if ps != [] {
      PromptsHoldNoWindow(fed, c, ps[..|ps| - 1]);
    }
  }

  /** The countdown is looked for, and this chunk is the first to bring it into the searched text. */
  predicate NewWindow(cfg: Config, fed: seq<string>, c: string) {
    cfg.autoboot != "" && !Hit(fed, cfg.autoboot) && Hit(fed + [c], cfg.autoboot)
  }

  /** The countdown is announced with the first chunk that shows it, in front of all else that this chunk brings. */
  lemma WindowComesFirst(cfg: Config, fed: seq<string>, c: string)
    requires !PanicHit(cfg, fed + [c])
    ensures var es := ChunkEvents(cfg, fed, c);
            && (NewWindow(cfg, fed, c) ==> es != [] && es[0] == AutobootWindow && AutobootWindow !in es[1..])
            && (!NewWindow(cfg, fed, c) ==> AutobootWindow !in es)
  {
    hide Hit, LineEvents, Gather, Clean, Complete;
    var closed := Clean(Complete(CR_OR_LF, Window(fed, c)));
    var prompts, lines := Gather(PromptFilter(fed, c), cfg.prompts), LineEvents(cfg.milestones, Lines(fed), closed);
    PromptsHoldNoWindow(fed, c, cfg.prompts);
    LinesHoldNoPrompt(cfg.milestones, Lines(fed), closed, AutobootWindow);
    var es := ChunkEvents(cfg, fed, c);
    assert es == AutobootEvents(cfg, fed, c) + prompts + lines;
    if NewWindow(cfg, fed, c) {
      assert es[1..] == prompts + lines;
    }
  }

  /** The same in terms of the text. */
  lemma WindowAtFirstSight(cfg: Config, fed: seq<string>, c: string)
    requires !PanicHit(cfg, fed + [c]) && LineBound(CR_OR_LF, cfg.autoboot)
    ensures AutobootWindow in ChunkEvents(cfg, fed, c) <==>
            && cfg.autoboot != "" && Occurs(Flat(fed) + c, cfg.autoboot)
            && !(fed != [] && Occurs(Flat(fed), cfg.autoboot))
  {
    hide ChunkEvents, Hit;
    WindowComesFirst(cfg, fed, c);
    HitIsSeen(fed, cfg.autoboot);
    HitIsSeen(fed + [c], cfg.autoboot);
    FlatAppend(fed, c);
    var es := ChunkEvents(cfg, fed, c);
    assert es != [] ==> es[0] in es;
  }

  /** Over a whole stream the countdown is announced once at most, and exactly if some beginning shows it and no panic. */
  lemma {:induction false} WindowInStream(cfg: Config, fed: seq<string>)
    ensures AutobootWindow in StreamEvents(cfg, fed) <==> cfg.autoboot != "" && Shown(cfg, fed, cfg.autoboot)
    ensures multiset(StreamEvents(cfg, fed))[AutobootWindow] <= 1
    decreases |fed|
  {
    hide Hit, ChunkEvents;
    if fed != [] {
      var init, c := fed[..|fed| - 1], fed[|fed| - 1];
      assert fed == init + [c];
      WindowInStream(cfg, init);
      PanicSnoc(cfg, init, c);
      ShownSnoc(cfg, init, c, cfg.autoboot);
      StreamSnoc(cfg, init, c);
      if !PanicHit(cfg, fed) {
        WindowStep(cfg, init, c);
      } else if !PanicHit(cfg, init) {
        PanicAlone(cfg, init, c);
      }
    } else {
      NothingShown(cfg, cfg.autoboot);
    }
  }

  lemma NothingShown(cfg: Config, tok: string)
    ensures !Shown(cfg, [], tok) && StreamEvents(cfg, []) == []
  {
  }

  lemma PanicAlone(cfg: Config, init: seq<string>, c: string)
    requires PanicHit(cfg, init + [c])
    ensures ChunkEvents(cfg, init, c) == [PanicDetected]
    ensures multiset(StreamEvents(cfg, init) + [PanicDetected])[AutobootWindow] ==
            multiset(StreamEvents(cfg, init))[AutobootWindow]
  {
    CountSplit(StreamEvents(cfg, init), [PanicDetected], AutobootWindow);
  }

  lemma WindowStep(cfg: Config, init: seq<string>, c: string)
    requires !PanicHit(cfg, init + [c]) && !PanicHit(cfg, init)
    requires AutobootWindow in StreamEvents(cfg, init) <==> cfg.autoboot != "" && Shown(cfg, init, cfg.autoboot)
    requires multiset(StreamEvents(cfg, init))[AutobootWindow] <= 1
    ensures var es := StreamEvents(cfg, init) + ChunkEvents(cfg, init, c);
            && (AutobootWindow in es <==>
                  cfg.autoboot != "" && (Shown(cfg, init, cfg.autoboot) || Hit(init + [c], cfg.autoboot)))
            && multiset(es)[AutobootWindow] <= 1
  {
    hide Hit, ChunkEvents, StreamEvents;
    var before, more := StreamEvents(cfg, init), ChunkEvents(cfg, init, c);
    WindowComesFirst(cfg, init, c);
    ShownIffHit(cfg, init, cfg.autoboot);
    HitSnoc(init, c, cfg.autoboot);
    CountSplit(before, more, AutobootWindow);
    assert multiset(before)[AutobootWindow] > 0 <==> AutobootWindow in before;
    if NewWindow(cfg, init, c) {
      assert more == [AutobootWindow] + more[1..];
      CountSplit([AutobootWindow], more[1..], AutobootWindow);
      assert multiset(more[1..])[AutobootWindow] == 0;
      assert more[0] in more;
    } else {
      assert multiset(more)[AutobootWindow] == 0;
    }
  }

  /** Without a panic, shown is seen. */
  lemma ShownIffHit(cfg: Config, fed: seq<string>, tok: string)
    requires !PanicHit(cfg, fed)
    ensures Shown(cfg, fed, tok) <==> Hit(fed, tok)
  {
    if Shown(cfg, fed, tok) {
      ShownIsHit(cfg, fed, tok);
    }
    if Hit(fed, tok) {
      assert fed[..|fed|] == fed;
    }
  }

  /** The events of a beginning are the beginning of the events. */
  lemma {:induction false} StreamBeginning(cfg: Config, fed: seq<string>, k: nat)
    requires k <= |fed|
    ensures StreamEvents(cfg, fed[..k]) <= StreamEvents(cfg, fed)
    decreases |fed|
  {
    if k == |fed| {
      assert fed[..k] == fed;
    } else {
      var init := fed[..|fed| - 1];
      assert init[..k] == fed[..k];
      StreamBeginning(cfg, init, k);
    }
  }

  /** Where the announcement stands: right behind the events of the chunks in front of it. */
  lemma WindowAt(cfg: Config, fed: seq<string>, k: nat)
    requires k < |fed| && !PanicHit(cfg, fed[..k + 1]) && NewWindow(cfg, fed[..k], fed[k])
    ensures var es, front := StreamEvents(cfg, fed), StreamEvents(cfg, fed[..k]);
            |front| < |es| && front <= es && es[|front|] == AutobootWindow
  {
    hide Hit, ChunkEvents, StreamEvents;
    assert fed[..k + 1] == fed[..k] + [fed[k]];
    PanicSnoc(cfg, fed[..k], fed[k]);
    StreamSnoc(cfg, fed[..k], fed[k]);
    WindowComesFirst(cfg, fed[..k], fed[k]);
    StreamBeginning(cfg, fed, k + 1);
    var front, more := StreamEvents(cfg, fed[..k]), ChunkEvents(cfg, fed[..k], fed[k]);
    assert StreamEvents(cfg, fed[..k + 1]) == front + more;
    assert (front + more)[|front|] == more[0];
  }

  // ---------------------------------------------------------------- the first prompt of the table

  lemma {:induction false} FirstOfTable(fed: seq<string>, c: string, ps: seq<Prompt>)
    requires ps != [] && !Hit(fed, ps[0].token) && Hit(fed + [c], ps[0].token)
    ensures var es := Gather(PromptFilter(fed, c), ps); es != [] && es[0] == PromptDetected(ps[0].ptype)
  {
    hide Hit;
    if |ps| > 1 {
      FirstOfTable(fed, c, ps[..|ps| - 1]);
    } else {
      assert ps[..0] == [] && [] + [PromptDetected(ps[0].ptype)] == [PromptDetected(ps[0].ptype)];
    }
  }

  /** Where nothing else is looked for first, the first prompt of the table comes first of all that its chunk brings. */
  lemma FirstPromptFirst(cfg: Config, fed: seq<string>, c: string)
    requires cfg.autoboot == "" && cfg.prompts != [] && !PanicHit(cfg, fed + [c])
    requires !Hit(fed, cfg.prompts[0].token) && Hit(fed + [c], cfg.prompts[0].token)
    ensures var es := ChunkEvents(cfg, fed, c); es != [] && es[0] == PromptDetected(cfg.prompts[0].ptype)
  {
    hide Hit, LineEvents, Gather, Clean, Complete, PanicHit;
    FirstOfTable(fed, c, cfg.prompts);
    var prompts := Gather(PromptFilter(fed, c), cfg.prompts);
    assert ChunkEvents(cfg, fed, c) ==
           [] + prompts + LineEvents(cfg.milestones, Lines(fed), Clean(Complete(CR_OR_LF, Window(fed, c))));
  }

  /** A prompt that is not in the table is never announced. */
  lemma {:induction false} UnknownPrompt(cfg: Config, fed: seq<string>, ptype: string)
    requires forall i :: 0 <= i < |cfg.prompts| ==> cfg.prompts[i].ptype != ptype
    ensures PromptDetected(ptype) !in StreamEvents(cfg, fed)
    decreases |fed|
  {
    hide ChunkEvents, PanicHit;
    if fed != [] {
      var init, c := fed[..|fed| - 1], fed[|fed| - 1];
      UnknownPrompt(cfg, init, ptype);
      assert fed == init + [c];
      StreamSnoc(cfg, init, c);
      UnknownInChunk(cfg, init, c, ptype);
    }
  }

  lemma UnknownInChunk(cfg: Config, fed: seq<string>, c: string, ptype: string)
    requires forall i :: 0 <= i < |cfg.prompts| ==> cfg.prompts[i].ptype != ptype
    ensures PromptDetected(ptype) !in ChunkEvents(cfg, fed, c)
  {
    hide LineEvents, Gather, Clean, Complete, Hit;
    PromptAbsent(fed, c, cfg.prompts, ptype);
    var prompts := Gather(PromptFilter(fed, c), cfg.prompts);
    assert PromptDetected(ptype) in prompts <==> multiset(prompts)[PromptDetected(ptype)] > 0;
    LinesHoldNoPrompt(cfg.milestones, Lines(fed), Clean(Complete(CR_OR_LF, Window(fed, c))), PromptDetected(ptype));
  }

  // ---------------------------------------------------------------- boot lines

  function Said(e: Event): seq<string> {
    if e.BootData? then [e.line] else []
  }

  lemma {:induction false} MilestonesSayNothing(earlier: seq<string>, line: string, ms: seq<Milestone>)
    ensures Gather(Said, Gather(MilestoneFilter(earlier, line), ms)) == []
  {
    if ms != [] {
      var init, m := ms[..|ms| - 1], ms[|ms| - 1];
      MilestonesSayNothing(earlier, line, init);
      GatherConcat(Said, Gather(MilestoneFilter(earlier, line), init), MilestoneFilter(earlier, line)(m));
      GatherSnoc(Said, [], MilestoneReached(m.name));
      assert [] + [MilestoneReached(m.name)] == [MilestoneReached(m.name)];
    }
  }

  /** The line events say the lines, in order. */
  lemma {:induction false} LineEventsSay(ms: seq<Milestone>, earlier: seq<string>, lines: seq<string>)
    ensures Gather(Said, LineEvents(ms, earlier, lines)) == lines
  {
    SaidOnce("");
    hide Gather;
    if lines != [] {
      var init, line := lines[..|lines| - 1], lines[|lines| - 1];
      LineEventsSay(ms, earlier, init);
      var reached := Gather(MilestoneFilter(earlier + init, line), ms);
      MilestonesSayNothing(earlier + init, line, ms);
      GatherConcat(Said, LineEvents(ms, earlier, init), [BootData(line)] + reached);
      GatherConcat(Said, [BootData(line)], reached);
      SaidOnce(line);
      assert [line] + [] == [line] && init + [line] == lines;
    }
  }

  lemma SaidOnce(line: string)
    ensures Gather(Said, [BootData(line)]) == [line] && Gather(Said, []) == []
  {
    GatherSnoc(Said, [], BootData(line));
    assert [] + [BootData(line)] == [BootData(line)];
  }

  /** Keeping the line events keeps what is said and reached. */
  lemma {:induction false} LineOnlyKeeps<B>(f: Event -> seq<B>, es: seq<Event>)
    requires forall e: Event :: !e.BootData? && !e.MilestoneReached? ==> f(e) == []
    ensures Gather(f, Gather(LineOnly, es)) == Gather(f, es)
  {
    if es != [] {
      var init, e := es[..|es| - 1], es[|es| - 1];
      LineOnlyKeeps(f, init);
      GatherConcat(f, Gather(LineOnly, init), LineOnly(e));
      GatherSnoc(f, [], e);
      assert [] + [e] == [e];
    }
  }

  /** Without a panic, the boot lines of a stream are the visible finished lines of its text, in order. */
  lemma BootLinesAreLines(cfg: Config, fed: seq<string>)
    requires !PanicHit(cfg, fed)
    ensures Gather(Said, StreamEvents(cfg, fed)) == Clean(Complete(CR_OR_LF, Flat(fed)))
  {
    hide StreamEvents, LineEvents, Gather, Clean, Complete;
    LinesIndependentOfChunking(cfg, fed);
    LineOnlyKeeps(Said, StreamEvents(cfg, fed));
    LineEventsSay(cfg.milestones, [], Clean(Complete(CR_OR_LF, Flat(fed))));
  }

  // ---------------------------------------------------------------- milestones

  predicate DistinctMilestones(ms: seq<Milestone>) {
    forall i, j :: 0 <= i < j < |ms| ==> ms[i].name != ms[j].name
  }

  /** How often a milestone of this name is reached. */
  function Times(es: seq<Event>, name: string): nat {
    multiset(es)[MilestoneReached(name)]
  }

  lemma TimesSplit(a: seq<Event>, b: seq<Event>, name: string)
    ensures Times(a + b, name) == Times(a, name) + Times(b, name)
  {
    CountSplit(a, b, MilestoneReached(name));
  }

  lemma {:induction false} UnnamedNever(earlier: seq<string>, line: string, ms: seq<Milestone>, name: string)
    requires forall j :: 0 <= j < |ms| ==> ms[j].name != name
    ensures Times(Gather(MilestoneFilter(earlier, line), ms), name) == 0
  {
    if ms != [] {
      var init, m := ms[..|ms| - 1], ms[|ms| - 1];
      UnnamedNever(earlier, line, init, name);
      TimesSplit(Gather(MilestoneFilter(earlier, line), init), MilestoneFilter(earlier, line)(m), name);
    }
  }

  /** A line reaches a milestone exactly if it is the first to mention it. */
  lemma {:induction false} ReachedByLine(earlier: seq<string>, line: string, ms: seq<Milestone>, i: nat)
    requires DistinctMilestones(ms) && i < |ms|
    ensures Times(Gather(MilestoneFilter(earlier, line), ms), ms[i].name) ==
            if Occurs(line, ms[i].value) && !Mentioned(earlier, ms[i].value) then 1 else 0
  {
    hide Mentioned, Occurs, Times, MilestoneFilter;
    var init, m := ms[..|ms| - 1], ms[|ms| - 1];
    TimesSplit(Gather(MilestoneFilter(earlier, line), init), MilestoneFilter(earlier, line)(m), ms[i].name);
    ReachedOne(earlier, line, m, ms[i].name);
    if i < |init| {
      DistinctFront(ms);
      assert init[i] == ms[i] && m.name != ms[i].name;
      ReachedByLine(earlier, line, init, i);
    } else {
      UnnamedNever(earlier, line, init, ms[i].name);
    }
  }

  lemma DistinctFront(ms: seq<Milestone>)
    requires ms != [] && DistinctMilestones(ms)
    ensures DistinctMilestones(ms[..|ms| - 1])
  {
  }

  lemma ReachedOne(earlier: seq<string>, line: string, m: Milestone, name: string)
    ensures Times(MilestoneFilter(earlier, line)(m), name) ==
            if m.name == name && Occurs(line, m.value) && !Mentioned(earlier, m.value) then 1 else 0
  {
  }

  lemma {:induction false} ReachedByLines(ms: seq<Milestone>, earlier: seq<string>, lines: seq<string>, i: nat)
    requires DistinctMilestones(ms) && i < |ms|
    ensures Times(LineEvents(ms, earlier, lines), ms[i].name) ==
            if Mentioned(earlier + lines, ms[i].value) && !Mentioned(earlier, ms[i].value) then 1 else 0
    decreases |lines|
  {
    hide Occurs, Mentioned, Times, Gather;
    if lines == [] {
      assert earlier + lines == earlier;
      NoneReached(ms, earlier, ms[i].name);
    } else {
      var init, line := lines[..|lines| - 1], lines[|lines| - 1];
      ReachedByLines(ms, earlier, init, i);
      ReachedByLine(earlier + init, line, ms, i);
      var reached := Gather(MilestoneFilter(earlier + init, line), ms);
      TimesSplit(LineEvents(ms, earlier, init), [BootData(line)] + reached, ms[i].name);
      TimesSplit([BootData(line)], reached, ms[i].name);
      NoneReached([], [line], ms[i].name);
      assert earlier + lines == earlier + init + [line];
      MentionedSnoc(earlier + init, line, ms[i].value);
      if Mentioned(earlier, ms[i].value) {
        StillMentioned(earlier, init, ms[i].value);
      }
    }
  }

  lemma NoneReached(ms: seq<Milestone>, earlier: seq<string>, name: string)
    ensures Times(LineEvents(ms, earlier, []), name) == 0
    ensures earlier != [] ==> Times([BootData(earlier[0])], name) == 0
  {
  }

  lemma StillMentioned(a: seq<string>, b: seq<string>, value: string)
    requires Mentioned(a, value)
    ensures Mentioned(a + b, value)
  {
    var i :| 0 <= i < |a| && Occurs(a[i], value);
    assert (a + b)[i] == a[i];
  }

  /** The lines a stream has reported: those of the whole text, or those in front of the chunk that brought a panic. */
  ghost predicate Reports(cfg: Config, fed: seq<string>, lines: seq<string>) {
    exists k :: && 0 <= k <= |fed| && !PanicHit(cfg, fed[..k]) && lines == Clean(Complete(CR_OR_LF, Flat(fed[..k])))
                && (k == |fed| || PanicHit(cfg, fed[..k + 1]))
  }

  /** Over a whole stream a milestone is reached once at most, and exactly if a reported line mentions it. */
  lemma MilestoneInStream(cfg: Config, fed: seq<string>, i: nat) returns (lines: seq<string>)
    requires DistinctMilestones(cfg.milestones) && i < |cfg.milestones|
    ensures Reports(cfg, fed, lines) && Gather(Said, StreamEvents(cfg, fed)) == lines
    ensures Times(StreamEvents(cfg, fed), cfg.milestones[i].name) ==
            if Mentioned(lines, cfg.milestones[i].value) then 1 else 0
  {
    hide StreamEvents, LineEvents, Gather, Clean, Complete, Times, PanicHit;
    var k := |fed|;
    if PanicHit(cfg, fed) {
      k := FirstPanicChunk(cfg, fed);
      LinesBeforePanic(cfg, fed, k);
    } else {
      LinesIndependentOfChunking(cfg, fed);
      assert fed[..k] == fed;
    }
    lines := Clean(Complete(CR_OR_LF, Flat(fed[..k])));
    assert StreamLines(cfg, fed) == LineEvents(cfg.milestones, [], lines);
    LineOnlyKeeps(Said, StreamEvents(cfg, fed));
    LineEventsSay(cfg.milestones, [], lines);
    ReachedByLines(cfg.milestones, [], lines, i);
    assert [] + lines == lines;
    NothingMentioned(cfg.milestones[i].value);
    TimesAmongLines(StreamEvents(cfg, fed), cfg.milestones[i].name);
  }

  lemma NothingMentioned(value: string)
    ensures !Mentioned([], value)
  {
  }

  lemma {:induction false} TimesAmongLines(es: seq<Event>, name: string)
    ensures Times(Gather(LineOnly, es), name) == Times(es, name)
  {
    if es != [] {
      var init, e := es[..|es| - 1], es[|es| - 1];
      TimesAmongLines(init, name);
      TimesSplit(Gather(LineOnly, init), LineOnly(e), name);
      assert es == init + [e];
      TimesSplit(init, [e], name);
    }
  }
}
