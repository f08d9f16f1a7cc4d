/**
 `UartEventStream.open`, the effective (second) definition: typed events out of arbitrarily cut,
 ANSI-free console chunks, with a buffer that keeps only the unfinished line.
 */
module EventStream {
  import opened Sequences
  import opened Text

  datatype Prompt = Prompt(ptype: string, token: string)
  datatype Milestone = Milestone(name: string, value: string)

  datatype Event =
    | PanicDetected
    | AutobootWindow
    | PromptDetected(ptype: string)
    | BootData(line: string)
    | MilestoneReached(name: string)

  /** `prompts` and `milestones` are dictionaries: ordered, with distinct keys. */
  datatype Config = Config(panics: seq<string>, autoboot: string, prompts: seq<Prompt>, milestones: seq<Milestone>)

  predicate DistinctPrompts(ps: seq<Prompt>) {
    forall i, j :: 0 <= i < j < |ps| ==> ps[i].ptype != ps[j].ptype
  }

  // ---------------------------------------------------------------- what the stream looks at

  /** The text searched when chunk `c` arrives: the unfinished line of the past, then `c`. */
  function Window(fed: seq<string>, c: string): string {
    Open(CR_OR_LF, Flat(fed)) + c
  }

  /** Some chunk of `fed` brought `tok` into the searched text. */
  predicate Hit(fed: seq<string>, tok: string) {
    fed != [] && (Hit(fed[..|fed| - 1], tok) || Occurs(Window(fed[..|fed| - 1], fed[|fed| - 1]), tok))
  }

  predicate PanicHit(cfg: Config, fed: seq<string>) {
    exists k :: 0 <= k < |cfg.panics| && Hit(fed, cfg.panics[k])
  }

  function Lines(fed: seq<string>): seq<string> {
    Clean(Complete(CR_OR_LF, Flat(fed)))
  }

  // ---------------------------------------------------------------- whole-text specification

  function PromptFilter(fed: seq<string>, c: string): Prompt -> seq<Event> {
    (p: Prompt) => if !Hit(fed, p.token) && Hit(fed + [c], p.token) then [PromptDetected(p.ptype)] else []
  }

  predicate Mentioned(lines: seq<string>, value: string) {
    exists i :: 0 <= i < |lines| && Occurs(lines[i], value)
  }

  function MilestoneFilter(earlier: seq<string>, line: string): Milestone -> seq<Event> {
    (m: Milestone) => if Occurs(line, m.value) && !Mentioned(earlier, m.value) then [MilestoneReached(m.name)] else []
  }

  /** Each line, then the milestones it is the first to mention. */
  function LineEvents(ms: seq<Milestone>, earlier: seq<string>, lines: seq<string>): seq<Event> {
    if lines == [] then []
    else
      var init, line := lines[..|lines| - 1], lines[|lines| - 1];
      LineEvents(ms, earlier, init) + ([BootData(line)] + Gather(MilestoneFilter(earlier + init, line), ms))
  }

  function AutobootEvents(cfg: Config, fed: seq<string>, c: string): seq<Event> {
    if cfg.autoboot != "" && !Hit(fed, cfg.autoboot) && Hit(fed + [c], cfg.autoboot) then [AutobootWindow] else []
  }

  function ChunkEvents(cfg: Config, fed: seq<string>, c: string): seq<Event> {
    if PanicHit(cfg, fed + [c]) then [PanicDetected]
    else
      AutobootEvents(cfg, fed, c)
      + Gather(PromptFilter(fed, c), cfg.prompts)
      + LineEvents(cfg.milestones, Lines(fed), Clean(Complete(CR_OR_LF, Window(fed, c))))
  }

  /** Everything the generator yields; it returns at the first panic. */
  function StreamEvents(cfg: Config, fed: seq<string>): seq<Event> {
    if fed == [] then []
    else
      var init := fed[..|fed| - 1];
      StreamEvents(cfg, init) + (if PanicHit(cfg, init) then [] else ChunkEvents(cfg, init, fed[|fed| - 1]))
  }

  // ---------------------------------------------------------------- chunking does not matter

  lemma HitSnoc(fed: seq<string>, c: string, tok: string)
    ensures Hit(fed + [c], tok) <==> Hit(fed, tok) || Occurs(Window(fed, c), tok)
  {
    assert (fed + [c])[..|fed|] == fed;
  }

  lemma StreamSnoc(cfg: Config, fed: seq<string>, c: string)
    ensures StreamEvents(cfg, fed + [c]) ==
            StreamEvents(cfg, fed) + (if PanicHit(cfg, fed) then [] else ChunkEvents(cfg, fed, c))
  {
    assert (fed + [c])[..|fed|] == fed;
  }

  /** The stream sees a token as soon as the concatenated text holds it, and not before. */
  lemma {:induction false} HitIsSeen(fed: seq<string>, tok: string)
    requires LineBound(CR_OR_LF, tok)
    ensures Hit(fed, tok) <==> fed != [] && Occurs(Flat(fed), tok)
    decreases |fed|
  {
    if fed != [] {
      var init, c := fed[..|fed| - 1], fed[|fed| - 1];
      HitIsSeen(init, tok);
      TokenStep(CR_OR_LF, Flat(init), c, tok);
      if init == [] && Occurs(Flat(init), tok) {
        assert OccursAt(Window(init, c), tok, 0);
      }
    }
  }

  lemma LinesSnoc(fed: seq<string>, c: string)
    ensures Lines(fed + [c]) == Lines(fed) + Clean(Complete(CR_OR_LF, Window(fed, c)))
    ensures Open(CR_OR_LF, Flat(fed + [c])) == Open(CR_OR_LF, Window(fed, c))
  {
    FlatAppend(fed, c);
    CompleteConcat(CR_OR_LF, Flat(fed), c);
    GatherConcat(CleanOne, Complete(CR_OR_LF, Flat(fed)), Complete(CR_OR_LF, Window(fed, c)));
  }

  lemma {:induction false} LineEventsConcat(ms: seq<Milestone>, earlier: seq<string>, a: seq<string>, b: seq<string>)
    ensures LineEvents(ms, earlier, a + b) == LineEvents(ms, earlier, a) + LineEvents(ms, earlier + a, b)
    decreases |b|
  {
    if b == [] {
      assert a + b == a && LineEvents(ms, earlier, a) + [] == LineEvents(ms, earlier, a);
    } else {
      var b', line := b[..|b| - 1], b[|b| - 1];
      LineEventsConcat(ms, earlier, a, b');
      assert (a + b)[..|a + b| - 1] == a + b' && (a + b)[|a + b| - 1] == line;
      Assoc(earlier, a, b');
      var step := [BootData(line)] + Gather(MilestoneFilter(earlier + a + b', line), ms);
      Assoc(LineEvents(ms, earlier, a), LineEvents(ms, earlier + a, b'), step);
    }
  }

  /** Keeps the events that come out of finished lines. */
  function LineOnly(e: Event): seq<Event> {
    if e.BootData? || e.MilestoneReached? then [e] else []
  }

  lemma {:induction false} GatherNone<A>(f: A -> seq<Event>, xs: seq<A>)
    requires forall i :: 0 <= i < |xs| ==> Gather(LineOnly, f(xs[i])) == []
    ensures Gather(LineOnly, Gather(f, xs)) == []
  {
    if xs != [] {
      var xs', x := xs[..|xs| - 1], xs[|xs| - 1];
      assert forall i :: 0 <= i < |xs'| ==> xs'[i] == xs[i];
      GatherNone(f, xs');
      GatherConcat(LineOnly, Gather(f, xs'), f(x));
    }
  }

  lemma LineOnlyOne(e: Event)
    ensures Gather(LineOnly, [e]) == LineOnly(e)
  {
    GatherSnoc(LineOnly, [], e);
    assert [] + [e] == [e];
  }

  lemma LineOnlyMilestones(earlier: seq<string>, line: string, ms: seq<Milestone>)
    ensures Gather(LineOnly, Gather(MilestoneFilter(earlier, line), ms)) == Gather(MilestoneFilter(earlier, line), ms)
  {
    var f := MilestoneFilter(earlier, line);
    forall i | 0 <= i < |ms| ensures Gather(LineOnly, f(ms[i])) == f(ms[i]) {
      LineOnlyOne(MilestoneReached(ms[i].name));
    }
    GatherGather(f, LineOnly, f, ms);
  }

  lemma {:induction false} LineOnlyLines(ms: seq<Milestone>, earlier: seq<string>, lines: seq<string>)
    ensures Gather(LineOnly, LineEvents(ms, earlier, lines)) == LineEvents(ms, earlier, lines)
  {
    if lines != [] {
      var init, line := lines[..|lines| - 1], lines[|lines| - 1];
      var reached := Gather(MilestoneFilter(earlier + init, line), ms);
      LineOnlyLines(ms, earlier, init);
      LineOnlyMilestones(earlier + init, line, ms);
      LineOnlyOne(BootData(line));
      GatherConcat(LineOnly, [BootData(line)], reached);
      GatherConcat(LineOnly, LineEvents(ms, earlier, init), [BootData(line)] + reached);
    }
  }

  lemma LineOnlyChunk(cfg: Config, fed: seq<string>, c: string)
    requires !PanicHit(cfg, fed + [c])
    ensures Gather(LineOnly, ChunkEvents(cfg, fed, c)) ==
            LineEvents(cfg.milestones, Lines(fed), Clean(Complete(CR_OR_LF, Window(fed, c))))
  {
    var a, p := AutobootEvents(cfg, fed, c), Gather(PromptFilter(fed, c), cfg.prompts);
    var l := LineEvents(cfg.milestones, Lines(fed), Clean(Complete(CR_OR_LF, Window(fed, c))));
    LineOnlyOne(AutobootWindow);
    forall i | 0 <= i < |cfg.prompts| ensures Gather(LineOnly, PromptFilter(fed, c)(cfg.prompts[i])) == [] {
      LineOnlyOne(PromptDetected(cfg.prompts[i].ptype));
    }
    GatherNone(PromptFilter(fed, c), cfg.prompts);
    LineOnlyLines(cfg.milestones, Lines(fed), Clean(Complete(CR_OR_LF, Window(fed, c))));
    GatherConcat(LineOnly, a, p);
    GatherConcat(LineOnly, a + p, l);
    assert [] + l == l;
  }

  lemma PanicSnoc(cfg: Config, fed: seq<string>, c: string)
    ensures PanicHit(cfg, fed + [c]) <==> PanicHit(cfg, fed) || AnyOccurs(Window(fed, c), cfg.panics)
  {
    forall k | 0 <= k < |cfg.panics|
      ensures Hit(fed + [c], cfg.panics[k]) <==> Hit(fed, cfg.panics[k]) || Occurs(Window(fed, c), cfg.panics[k])
    {
      HitSnoc(fed, c, cfg.panics[k]);
    }
  }

  lemma NoEventsYet(cfg: Config)
    ensures Gather(LineOnly, StreamEvents(cfg, [])) == LineEvents(cfg.milestones, [], Clean(Complete(CR_OR_LF, Flat([]))))
  {
  }

  /** Boot lines and milestones depend on the concatenated text alone, even where a CRLF is cut in two. */
  lemma {:induction false} LinesIndependentOfChunking(cfg: Config, fed: seq<string>)
    requires !PanicHit(cfg, fed)
    ensures Gather(LineOnly, StreamEvents(cfg, fed)) ==
            LineEvents(cfg.milestones, [], Clean(Complete(CR_OR_LF, Flat(fed))))
    decreases |fed|
  {
    hide LineEvents, Gather, Clean, Complete, ChunkEvents, Hit, Window, Open;
    if fed == [] {
      NoEventsYet(cfg);
    } else {
      var init, c := fed[..|fed| - 1], fed[|fed| - 1];
      assert fed == init + [c];
      PanicSnoc(cfg, init, c);
      LinesIndependentOfChunking(cfg, init);
      LineOnlyChunk(cfg, init, c);
      StreamSnoc(cfg, init, c);
      GatherConcat(LineOnly, StreamEvents(cfg, init), ChunkEvents(cfg, init, c));
      LinesSnoc(init, c);
      var closed := Clean(Complete(CR_OR_LF, Window(init, c)));
      LineEventsConcat(cfg.milestones, [], Lines(init), closed);
      assert [] + Lines(init) == Lines(init);
    }
  }

  // ---------------------------------------------------------------- prompts and panics

  lemma OnePrompt(fed: seq<string>, c: string, p: Prompt, ptype: string)
    ensures multiset(PromptFilter(fed, c)(p))[PromptDetected(ptype)] ==
            if p.ptype == ptype && !Hit(fed, p.token) && Hit(fed + [c], p.token) then 1 else 0
  {
  }

  lemma {:induction false} PromptAbsent(fed: seq<string>, c: string, ps: seq<Prompt>, ptype: string)
    requires forall j :: 0 <= j < |ps| ==> ps[j].ptype != ptype
    ensures multiset(Gather(PromptFilter(fed, c), ps))[PromptDetected(ptype)] == 0
  {
    if ps != [] {
      var init, p := ps[..|ps| - 1], ps[|ps| - 1];
      PromptAbsent(fed, c, init, ptype);
      OnePrompt(fed, c, p, ptype);
      CountSplit(Gather(PromptFilter(fed, c), init), PromptFilter(fed, c)(p), PromptDetected(ptype));
    }
  }

  lemma {:induction false} LinesHoldNoPrompt(ms: seq<Milestone>, earlier: seq<string>, lines: seq<string>, e: Event)
    requires e.PromptDetected? || e.PanicDetected? || e.AutobootWindow?
    ensures e !in LineEvents(ms, earlier, lines)
  {
    if lines != [] {
      var init, line := lines[..|lines| - 1], lines[|lines| - 1];
      LinesHoldNoPrompt(ms, earlier, init, e);
      MilestonesHoldNoPrompt(earlier + init, line, ms, e);
    }
  }

  lemma {:induction false} MilestonesHoldNoPrompt(earlier: seq<string>, line: string, ms: seq<Milestone>, e: Event)
    requires e.PromptDetected? || e.PanicDetected? || e.AutobootWindow?
    ensures e !in Gather(MilestoneFilter(earlier, line), ms)
  {
    if ms != [] {
      MilestonesHoldNoPrompt(earlier, line, ms[..|ms| - 1], e);
    }
  }

  lemma {:induction false} PromptCountAt(fed: seq<string>, c: string, ps: seq<Prompt>, i: nat)
    requires DistinctPrompts(ps) && i < |ps|
    ensures multiset(Gather(PromptFilter(fed, c), ps))[PromptDetected(ps[i].ptype)] ==
            if !Hit(fed, ps[i].token) && Hit(fed + [c], ps[i].token) then 1 else 0
  {
    hide Hit;
    var init, p, ptype := ps[..|ps| - 1], ps[|ps| - 1], ps[i].ptype;
    CountSplit(Gather(PromptFilter(fed, c), init), PromptFilter(fed, c)(p), PromptDetected(ptype));
    OnePrompt(fed, c, p, ptype);
    if i < |init| {
      DistinctInit(ps);
      assert init[i] == ps[i] && p.ptype != ptype;
      PromptCountAt(fed, c, init, i);
    } else {
      PromptAbsent(fed, c, init, ptype);
    }
  }

  lemma DistinctInit(ps: seq<Prompt>)
    requires ps != [] && DistinctPrompts(ps)
    ensures DistinctPrompts(ps[..|ps| - 1])
  {
  }

  lemma CountSplit<T>(a: seq<T>, b: seq<T>, e: T)
    ensures multiset(a + b)[e] == multiset(a)[e] + multiset(b)[e]
  {
    assert multiset(a + b) == multiset(a) + multiset(b);
  }

  lemma CountInMiddle<T>(a: seq<T>, q: seq<T>, l: seq<T>, e: T)
    requires e !in a && e !in l
    ensures multiset(a + q + l)[e] == multiset(q)[e]
  {
    assert multiset(a + q + l) == multiset(a) + multiset(q) + multiset(l);
  }

  /** How often a chunk announces a prompt: once when its token is new with this chunk, else not at all. */
  lemma ChunkPromptCount(cfg: Config, fed: seq<string>, c: string, i: nat)
    requires DistinctPrompts(cfg.prompts) && i < |cfg.prompts| && !PanicHit(cfg, fed + [c])
    ensures multiset(ChunkEvents(cfg, fed, c))[PromptDetected(cfg.prompts[i].ptype)] ==
            if !Hit(fed, cfg.prompts[i].token) && Hit(fed + [c], cfg.prompts[i].token) then 1 else 0
  {
    var e, closed := PromptDetected(cfg.prompts[i].ptype), Clean(Complete(CR_OR_LF, Window(fed, c)));
    LinesHoldNoPrompt(cfg.milestones, Lines(fed), closed, e);
    CountInMiddle(AutobootEvents(cfg, fed, c), Gather(PromptFilter(fed, c), cfg.prompts),
                  LineEvents(cfg.milestones, Lines(fed), closed), e);
    PromptCountAt(fed, c, cfg.prompts, i);
  }

  /** A prompt is announced with exactly the first chunk that completes its token in the whole text. */
  lemma PromptAtFirstSight(cfg: Config, fed: seq<string>, c: string, i: nat)
    requires DistinctPrompts(cfg.prompts) && i < |cfg.prompts| && !PanicHit(cfg, fed + [c])
    requires LineBound(CR_OR_LF, cfg.prompts[i].token)
    ensures PromptDetected(cfg.prompts[i].ptype) in ChunkEvents(cfg, fed, c) <==>
            Occurs(Flat(fed) + c, cfg.prompts[i].token) && !(fed != [] && Occurs(Flat(fed), cfg.prompts[i].token))
  {
    var tok := cfg.prompts[i].token;
    ChunkPromptCount(cfg, fed, c, i);
    HitIsSeen(fed, tok);
    HitIsSeen(fed + [c], tok);
    FlatAppend(fed, c);
    assert multiset(ChunkEvents(cfg, fed, c))[PromptDetected(cfg.prompts[i].ptype)] > 0 <==>
           PromptDetected(cfg.prompts[i].ptype) in ChunkEvents(cfg, fed, c);
  }

  /** Over a whole run no prompt type is announced twice, and exactly the prompts hit are announced. */
  lemma {:induction false} PromptAtMostOnce(cfg: Config, fed: seq<string>, i: nat)
    requires DistinctPrompts(cfg.prompts) && i < |cfg.prompts|
    ensures var n := multiset(StreamEvents(cfg, fed))[PromptDetected(cfg.prompts[i].ptype)];
            n <= 1 && (!PanicHit(cfg, fed) ==> (n == 1 <==> Hit(fed, cfg.prompts[i].token)))
    decreases |fed|
  {
    if fed != [] {
      var init, c := fed[..|fed| - 1], fed[|fed| - 1];
      var e := PromptDetected(cfg.prompts[i].ptype);
      assert fed == init + [c];
      PromptAtMostOnce(cfg, init, i);
      PanicSnoc(cfg, init, c);
      HitSnoc(init, c, cfg.prompts[i].token);
      StreamSnoc(cfg, init, c);
      if !PanicHit(cfg, fed) {
        ChunkPromptCount(cfg, init, c, i);
      }
      CountSplit(StreamEvents(cfg, init), ChunkEvents(cfg, init, c), e);
    }
  }

  /** A panic event is there exactly when a panic token was hit; it is the last event and the only one. */
  lemma {:induction false} PanicEndsStream(cfg: Config, fed: seq<string>)
    ensures var es := StreamEvents(cfg, fed);
            && (PanicHit(cfg, fed) <==> PanicDetected in es)
            && (PanicDetected in es ==> PanicDetected !in es[..|es| - 1])
    decreases |fed|
  {
    if fed != [] {
      var init, c := fed[..|fed| - 1], fed[|fed| - 1];
      assert fed == init + [c];
      PanicEndsStream(cfg, init);
      PanicSnoc(cfg, init, c);
      StreamSnoc(cfg, init, c);
      var before, es := StreamEvents(cfg, init), StreamEvents(cfg, fed);
      if PanicHit(cfg, init) {
        assert es == before;
      } else if PanicHit(cfg, fed) {
        assert es == before + [PanicDetected] && es[..|es| - 1] == before;
      } else {
        ChunkHoldsNoPanic(cfg, init, c);
      }
    }
  }

  lemma ChunkHoldsNoPanic(cfg: Config, fed: seq<string>, c: string)
    requires !PanicHit(cfg, fed + [c])
    ensures PanicDetected !in ChunkEvents(cfg, fed, c)
  {
    LinesHoldNoPrompt(cfg.milestones, Lines(fed), Clean(Complete(CR_OR_LF, Window(fed, c))), PanicDetected);
    PromptsHoldNoPanic(fed, c, cfg.prompts);
  }

  lemma {:induction false} PromptsHoldNoPanic(fed: seq<string>, c: string, ps: seq<Prompt>)
    ensures PanicDetected !in Gather(PromptFilter(fed, c), ps)
  {
    if ps != [] {
      PromptsHoldNoPanic(fed, c, ps[..|ps| - 1]);
    }
  }

  // ---------------------------------------------------------------- the generator itself

  function PendingFilter(lines: seq<string>): Milestone -> seq<Milestone> {
    (m: Milestone) => if Mentioned(lines, m.value) then [] else [m]
  }

  /** The comprehension over the milestones still pending: those whose value is in the line. */
  function FoundIn(line: string): Milestone -> seq<Event> {
    (m: Milestone) => if Occurs(line, m.value) then [MilestoneReached(m.name)] else []
  }

  function NotFoundIn(line: string): Milestone -> seq<Milestone> {
    (m: Milestone) => if Occurs(line, m.value) then [] else [m]
  }

  lemma MentionedSnoc(lines: seq<string>, line: string, value: string)
    ensures Mentioned(lines + [line], value) <==> Mentioned(lines, value) || Occurs(line, value)
  {
    if Mentioned(lines, value) {
      var i :| 0 <= i < |lines| && Occurs(lines[i], value);
      assert (lines + [line])[i] == lines[i];
    }
    if Occurs(line, value) {
      assert (lines + [line])[|lines|] == line;
    }
  }

  /** Searching the pending milestones finds the ones no earlier line has mentioned. */
  lemma PendingStep(lines: seq<string>, line: string, ms: seq<Milestone>)
    ensures Gather(FoundIn(line), Gather(PendingFilter(lines), ms)) == Gather(MilestoneFilter(lines, line), ms)
    ensures Gather(NotFoundIn(line), Gather(PendingFilter(lines), ms)) == Gather(PendingFilter(lines + [line]), ms)
  {
    forall i | 0 <= i < |ms|
      ensures Gather(FoundIn(line), PendingFilter(lines)(ms[i])) == MilestoneFilter(lines, line)(ms[i])
      ensures Gather(NotFoundIn(line), PendingFilter(lines)(ms[i])) == PendingFilter(lines + [line])(ms[i])
    {
      MentionedSnoc(lines, line, ms[i].value);
      GatherSnoc(FoundIn(line), [], ms[i]);
      GatherSnoc(NotFoundIn(line), [], ms[i]);
      assert [] + [ms[i]] == [ms[i]];
    }
    GatherGather(PendingFilter(lines), FoundIn(line), MilestoneFilter(lines, line), ms);
    GatherGather(PendingFilter(lines), NotFoundIn(line), PendingFilter(lines + [line]), ms);
  }

  /** The announced prompts: of the first `n` those seen in `now`, of the others those seen in `past`. */
  predicate PromptsTracked(ps: seq<Prompt>, detected: set<string>, n: nat, past: seq<string>, now: seq<string>) {
    forall i :: 0 <= i < |ps| ==> (ps[i].ptype in detected <==> Hit(if i < n then now else past, ps[i].token))
  }

  lemma TrackedEnds(ps: seq<Prompt>, detected: set<string>, past: seq<string>, now: seq<string>)
    ensures PromptsTracked(ps, detected, 0, past, past) <==> PromptsTracked(ps, detected, 0, past, now)
    ensures PromptsTracked(ps, detected, |ps|, past, now) <==> PromptsTracked(ps, detected, 0, now, now)
  {
    hide Hit;
  }

  lemma TrackedNext(ps: seq<Prompt>, detected: set<string>, n: nat, past: seq<string>, now: seq<string>)
    requires DistinctPrompts(ps) && n < |ps| && PromptsTracked(ps, detected, n, past, now)
    requires Hit(past, ps[n].token) ==> Hit(now, ps[n].token)
    ensures ps[n].ptype in detected <==> Hit(past, ps[n].token)
    ensures var isNew := ps[n].ptype !in detected && Hit(now, ps[n].token);
            PromptsTracked(ps, if isNew then detected + {ps[n].ptype} else detected, n + 1, past, now)
  {
    hide Hit;
  }

  class UartEventStream {
    const cfg: Config
    var localBuf: string
    var detected: set<string>
    var pending: seq<Milestone>
    var autobootFired: bool
    var closed: bool
    ghost var fed: seq<string>

    /** Every retained field is determined by the whole text so far. */
    ghost predicate Tracks(past: seq<string>)
      reads this
    {
      && localBuf == Open(CR_OR_LF, Flat(past))
      && PromptsTracked(cfg.prompts, detected, 0, past, past)
      && pending == Gather(PendingFilter(Lines(past)), cfg.milestones)
      && (cfg.autoboot != "" ==> (autobootFired <==> Hit(past, cfg.autoboot)))
    }

    ghost predicate Valid()
      reads this
    {
      && DistinctPrompts(cfg.prompts)
      && (closed <==> PanicHit(cfg, fed))
      && (!closed ==> Tracks(fed))
    }

    constructor (cfg: Config)
      requires DistinctPrompts(cfg.prompts)
      ensures Valid() && this.cfg == cfg && fed == [] && !closed
    {
      this.cfg := cfg;
      localBuf, detected, pending, autobootFired, closed := "", {}, cfg.milestones, false, false;
      fed := [];
      new;
      AllPending(cfg.milestones);
    }

    /** One chunk of console text: the loop body of the generator. */
    method OnChunk(c: string) returns (events: seq<Event>)
      requires Valid() && !closed
      modifies this
      ensures Valid() && fed == old(fed) + [c]
      ensures closed <==> PanicHit(cfg, fed)
      ensures events == ChunkEvents(cfg, old(fed), c)
    {
      PanicSnoc(cfg, fed, c);
      var window := localBuf + c;
      if AnyOccurs(window, cfg.panics) {
        closed := true;
        events := [PanicDetected];
      } else {
        events := Digest(fed, c);
      }
      fed := fed + [c];
    }

    /** A chunk without a panic. */
    method Digest(ghost past: seq<string>, c: string) returns (events: seq<Event>)
      requires DistinctPrompts(cfg.prompts) && Tracks(past)
      modifies this`localBuf, this`detected, this`pending, this`autobootFired
      ensures Tracks(past + [c])
      ensures events == AutobootEvents(cfg, past, c) + Gather(PromptFilter(past, c), cfg.prompts)
                        + LineEvents(cfg.milestones, Lines(past), Clean(Complete(CR_OR_LF, Window(past, c))))
    {
      localBuf := localBuf + c;
      var autoboot := CheckAutoboot(past, c);
      var prompts := CheckPrompts(past, c);
      var lines := PopLines(past, c);
      events := autoboot + prompts + lines;
    }

    method CheckAutoboot(ghost past: seq<string>, ghost c: string) returns (events: seq<Event>)
      requires localBuf == Window(past, c)
      requires cfg.autoboot != "" ==> (autobootFired <==> Hit(past, cfg.autoboot))
      modifies this`autobootFired
      ensures cfg.autoboot != "" ==> (autobootFired <==> Hit(past + [c], cfg.autoboot))
      ensures events == AutobootEvents(cfg, past, c)
    {
      HitSnoc(past, c, cfg.autoboot);
      events := [];
      if cfg.autoboot != "" && !autobootFired && Occurs(localBuf, cfg.autoboot) {
        autobootFired := true;
        events := [AutobootWindow];
      }
    }

    /** The prompts not announced before whose token is in the buffer, in dictionary order. */
    method CheckPrompts(ghost past: seq<string>, ghost c: string) returns (events: seq<Event>)
      requires DistinctPrompts(cfg.prompts) && PromptsTracked(cfg.prompts, detected, 0, past, past)
      requires localBuf == Window(past, c)
      modifies this`detected
      ensures PromptsTracked(cfg.prompts, detected, 0, past + [c], past + [c])
      ensures events == Gather(PromptFilter(past, c), cfg.prompts)
    {
      hide PromptsTracked, DistinctPrompts, Hit, Window, PromptFilter;
      events := [];
      ghost var now := past + [c];
      TrackedEnds(cfg.prompts, detected, past, now);
      for k := 0 to |cfg.prompts|
        invariant PromptsTracked(cfg.prompts, detected, k, past, now)
        invariant events == Gather(PromptFilter(past, c), cfg.prompts[..k])
      {
        var announced := CheckPrompt(k, past, c);
        GatherTake(PromptFilter(past, c), cfg.prompts, k);
        events := events + announced;
      }
      TrackedEnds(cfg.prompts, detected, past, now);
      assert cfg.prompts[..|cfg.prompts|] == cfg.prompts;
    }

    /** One prompt of the dictionary. */
    method CheckPrompt(k: nat, ghost past: seq<string>, ghost c: string) returns (events: seq<Event>)
      requires k < |cfg.prompts| && DistinctPrompts(cfg.prompts) && localBuf == Window(past, c)
      requires PromptsTracked(cfg.prompts, detected, k, past, past + [c])
      modifies this`detected
      ensures PromptsTracked(cfg.prompts, detected, k + 1, past, past + [c])
      ensures events == PromptFilter(past, c)(cfg.prompts[k])
    {
      hide PromptsTracked, DistinctPrompts, Hit, Window, Occurs;
      var p := cfg.prompts[k];
      HitSnoc(past, c, p.token);
      TrackedNext(cfg.prompts, detected, k, past, past + [c]);
      events := [];
      if p.ptype !in detected && Occurs(localBuf, p.token) {
        detected := detected + {p.ptype};
        events := [PromptDetected(p.ptype)];
      }
    }

    /** A finished line, then the pending milestones it mentions; those are pending no more. */
    method EmitLine(line: string, ghost seen: seq<string>) returns (events: seq<Event>)
      requires pending == Gather(PendingFilter(seen), cfg.milestones)
      modifies this`pending
      ensures pending == Gather(PendingFilter(seen + [line]), cfg.milestones)
      ensures events == [BootData(line)] + Gather(MilestoneFilter(seen, line), cfg.milestones)
    {
      PendingStep(seen, line, cfg.milestones);
      var found := Gather(FoundIn(line), pending);
      pending := Gather(NotFoundIn(line), pending);
      events := [BootData(line)] + found;
    }

    /** Pops finished lines off normalised text one by one. */
    method PopAll(text: string, ghost seen: seq<string>) returns (events: seq<Event>, buf: string)
      requires pending == Gather(PendingFilter(seen), cfg.milestones)
      modifies this`pending
      ensures buf == Open(LF_ONLY, text)
      ensures pending == Gather(PendingFilter(seen + Clean(Complete(LF_ONLY, text))), cfg.milestones)
      ensures events == LineEvents(cfg.milestones, seen, Clean(Complete(LF_ONLY, text)))
    {
      events, buf := [], text;
      ghost var all, done: seq<string> := Clean(Complete(LF_ONLY, text)), [];
      assert seen + [] == seen && [] + all == all;
      var i := FirstLf(buf);
      while i < |buf|
        invariant 0 <= i <= |buf| && Free(LF_ONLY, buf[..i]) && (i < |buf| ==> buf[i] == '\n')
        invariant done + Clean(Complete(LF_ONLY, buf)) == all && Open(LF_ONLY, buf) == Open(LF_ONLY, text)
        invariant pending == Gather(PendingFilter(seen + done), cfg.milestones)
        invariant events == LineEvents(cfg.milestones, seen, done)
        decreases |buf|
      {
        PopFirst(buf, i, done);
        var line := buf[..i];
        buf := buf[i + 1..];
        var cleanLine := Strip(line);
        if cleanLine != "" {
          var more := EmitLine(cleanLine, seen + done);
          LineEventsSnoc(cfg.milestones, seen, done, cleanLine);
          Assoc(seen, done, [cleanLine]);
          events := events + more;
          done := done + [cleanLine];
        } else {
          assert done + [] == done;
        }
        i := FirstLf(buf);
      }
      assert buf[..i] == buf;
      FreeIsOpen(LF_ONLY, buf);
      assert Clean([]) == [] && done + [] == done;
    }

    /** Normalises line ends and pops every finished line; only the unfinished one stays buffered. */
    method PopLines(ghost past: seq<string>, ghost c: string) returns (events: seq<Event>)
      requires localBuf == Window(past, c) && pending == Gather(PendingFilter(Lines(past)), cfg.milestones)
      modifies this`localBuf, this`pending
      ensures localBuf == Open(CR_OR_LF, Flat(past + [c]))
      ensures pending == Gather(PendingFilter(Lines(past + [c])), cfg.milestones)
      ensures events == LineEvents(cfg.milestones, Lines(past), Clean(Complete(CR_OR_LF, Window(past, c))))
    {
      NormaliseIsReplace(localBuf);
      NormalisedLines(localBuf);
      LinesSnoc(past, c);
      var normalised := CrToLf(CrLfToLf(localBuf));
      events, localBuf := PopAll(normalised, Lines(past));
    }
  }

  lemma PopFirst(buf: string, i: nat, done: seq<string>)
    requires i < |buf| && Free(LF_ONLY, buf[..i]) && buf[i] == '\n'
    ensures done + Clean(Complete(LF_ONLY, buf)) == (done + CleanOne(buf[..i])) + Clean(Complete(LF_ONLY, buf[i + 1..]))
    ensures Open(LF_ONLY, buf) == Open(LF_ONLY, buf[i + 1..])
  {
    hide CleanOne, Complete, Open;
    var line, rest := buf[..i], buf[i + 1..];
    assert buf == line + "\n" + rest;
    SplitFirst(line, rest);
    GatherConcat(CleanOne, [line], Complete(LF_ONLY, rest));
    CleanSingle(line);
    Assoc(done, CleanOne(line), Clean(Complete(LF_ONLY, rest)));
  }

  lemma CleanSingle(line: string)
    ensures Clean([line]) == CleanOne(line)
  {
    hide CleanOne;
    GatherSnoc(CleanOne, [], line);
    assert [] + [line] == [line] && [] + CleanOne(line) == CleanOne(line);
  }

  lemma LineEventsSnoc(ms: seq<Milestone>, earlier: seq<string>, lines: seq<string>, line: string)
    ensures LineEvents(ms, earlier, lines + [line]) ==
            LineEvents(ms, earlier, lines) + ([BootData(line)] + Gather(MilestoneFilter(earlier + lines, line), ms))
  {
    assert (lines + [line])[..|lines|] == lines;
  }

  lemma {:induction false} AllPending(ms: seq<Milestone>)
    ensures Gather(PendingFilter([]), ms) == ms
  {
    if ms != [] {
      AllPending(ms[..|ms| - 1]);
      assert ms == ms[..|ms| - 1] + [ms[|ms| - 1]];
    }
  }

  /** Once a panic was hit, later chunks yield nothing. */
  lemma {:induction false} NothingAfterPanic(cfg: Config, chunks: seq<string>, k: nat)
    requires k <= |chunks| && PanicHit(cfg, chunks[..k])
    ensures PanicHit(cfg, chunks) && StreamEvents(cfg, chunks) == StreamEvents(cfg, chunks[..k])
    decreases |chunks|
  {
    if k == |chunks| {
      assert chunks[..k] == chunks;
    } else {
      var init, c := chunks[..|chunks| - 1], chunks[|chunks| - 1];
      assert chunks == init + [c] && init[..k] == chunks[..k];
      NothingAfterPanic(cfg, init, k);
      PanicSnoc(cfg, init, c);
      StreamSnoc(cfg, init, c);
      assert StreamEvents(cfg, init) + [] == StreamEvents(cfg, init);
    }
  }

  lemma StreamTurn(cfg: Config, chunks: seq<string>, k: nat)
    requires k < |chunks| && !PanicHit(cfg, chunks[..k])
    ensures chunks[..k + 1] == chunks[..k] + [chunks[k]]
    ensures StreamEvents(cfg, chunks[..k + 1]) == StreamEvents(cfg, chunks[..k]) + ChunkEvents(cfg, chunks[..k], chunks[k])
  {
    assert chunks[..k + 1] == chunks[..k] + [chunks[k]];
    StreamSnoc(cfg, chunks[..k], chunks[k]);
  }

  /** Some beginning of the stream shows `tok` and no panic. */
  predicate Shown(cfg: Config, fed: seq<string>, tok: string) {
    exists k :: 0 < k <= |fed| && !PanicHit(cfg, fed[..k]) && Hit(fed[..k], tok)
  }

  lemma ShownSnoc(cfg: Config, init: seq<string>, c: string, tok: string)
    ensures Shown(cfg, init + [c], tok) <==> Shown(cfg, init, tok) || (!PanicHit(cfg, init + [c]) && Hit(init + [c], tok))
  {
    var fed := init + [c];
    assert forall k :: 0 < k <= |init| ==> init[..k] == fed[..k];
    assert fed[..|fed|] == fed;
  }

  lemma ShownIsHit(cfg: Config, fed: seq<string>, tok: string)
    requires Shown(cfg, fed, tok)
    ensures Hit(fed, tok)
  {
    var k :| 0 < k <= |fed| && !PanicHit(cfg, fed[..k]) && Hit(fed[..k], tok);
    HitStays(fed, tok, k);
  }

  /** A prompt is in the stream exactly when some beginning of it shows the token and no panic. */
  lemma {:induction false} PromptInStream(cfg: Config, fed: seq<string>, i: nat)
    requires DistinctPrompts(cfg.prompts) && i < |cfg.prompts|
    ensures PromptDetected(cfg.prompts[i].ptype) in StreamEvents(cfg, fed) <==> Shown(cfg, fed, cfg.prompts[i].token)
    decreases |fed|
  {
    if fed != [] {
      var init, c := fed[..|fed| - 1], fed[|fed| - 1];
      assert fed == init + [c];
      PromptInStream(cfg, init, i);
      PanicSnoc(cfg, init, c);
      ShownSnoc(cfg, init, c, cfg.prompts[i].token);
      if PanicHit(cfg, fed) {
        StreamSnoc(cfg, init, c);
      } else {
        PromptByHit(cfg, fed, i);
      }
    }
  }

  lemma PromptByHit(cfg: Config, fed: seq<string>, i: nat)
    requires DistinctPrompts(cfg.prompts) && i < |cfg.prompts| && fed != [] && !PanicHit(cfg, fed)
    ensures PromptDetected(cfg.prompts[i].ptype) in StreamEvents(cfg, fed) <==> Shown(cfg, fed, cfg.prompts[i].token)
  {
    var e, es, tok := PromptDetected(cfg.prompts[i].ptype), StreamEvents(cfg, fed), cfg.prompts[i].token;
    PromptAtMostOnce(cfg, fed, i);
    assert multiset(es)[e] > 0 <==> e in es;
    if Shown(cfg, fed, tok) {
      ShownIsHit(cfg, fed, tok);
    }
    if Hit(fed, tok) {
      assert fed[..|fed|] == fed;
    }
  }

  lemma {:induction false} HitStays(fed: seq<string>, tok: string, k: nat)
    requires k <= |fed| && Hit(fed[..k], tok)
    ensures Hit(fed, tok)
    decreases |fed|
  {
    if k == |fed| {
      assert fed[..k] == fed;
    } else {
      var init := fed[..|fed| - 1];
      assert init[..k] == fed[..k];
      HitStays(init, tok, k);
    }
  }

  // ---------------------------------------------------------------- lines and panics

  /** The boot lines and milestones of a whole stream. */
  function StreamLines(cfg: Config, fed: seq<string>): seq<Event> {
    Gather(LineOnly, StreamEvents(cfg, fed))
  }

  /** The boot lines and milestones a text holds. */
  function TextLines(cfg: Config, s: string): seq<Event> {
    LineEvents(cfg.milestones, [], Clean(Complete(CR_OR_LF, s)))
  }

  /** The chunk that brings a panic yields no line, not even one it has just finished. */
  lemma LinesBeforePanic(cfg: Config, fed: seq<string>, k: nat)
    requires k < |fed| && !PanicHit(cfg, fed[..k]) && PanicHit(cfg, fed[..k + 1])
    ensures StreamLines(cfg, fed) == TextLines(cfg, Flat(fed[..k]))
  {
    NothingAfterPanic(cfg, fed, k + 1);
    StreamTurn(cfg, fed, k);
    LinesIndependentOfChunking(cfg, fed[..k]);
    GatherConcat(LineOnly, StreamEvents(cfg, fed[..k]), [PanicDetected]);
    LineOnlyOne(PanicDetected);
    assert TextLines(cfg, Flat(fed[..k])) + [] == TextLines(cfg, Flat(fed[..k]));
  }

  predicate LineBoundPanics(cfg: Config) {
    forall k :: 0 <= k < |cfg.panics| ==> LineBound(CR_OR_LF, cfg.panics[k])
  }

  lemma PanicIsSeen(cfg: Config, fed: seq<string>)
    requires LineBoundPanics(cfg)
    ensures PanicHit(cfg, fed) <==> fed != [] && AnyOccurs(Flat(fed), cfg.panics)
  {
    forall k | 0 <= k < |cfg.panics|
      ensures Hit(fed, cfg.panics[k]) <==> fed != [] && Occurs(Flat(fed), cfg.panics[k])
    {
      HitIsSeen(fed, cfg.panics[k]);
    }
  }

  /** In terms of the text: some beginning that ends with a chunk holds the token and no panic. */
  predicate ShownInText(cfg: Config, fed: seq<string>, tok: string) {
    exists k :: 0 < k <= |fed| && Occurs(Flat(fed[..k]), tok) && !AnyOccurs(Flat(fed[..k]), cfg.panics)
  }

  lemma ShownIsInText(cfg: Config, fed: seq<string>, tok: string)
    requires LineBoundPanics(cfg) && LineBound(CR_OR_LF, tok)
    ensures Shown(cfg, fed, tok) <==> ShownInText(cfg, fed, tok)
  {
    forall k | 0 < k <= |fed|
      ensures Hit(fed[..k], tok) <==> Occurs(Flat(fed[..k]), tok)
      ensures PanicHit(cfg, fed[..k]) <==> AnyOccurs(Flat(fed[..k]), cfg.panics)
    {
      HitIsSeen(fed[..k], tok);
      PanicIsSeen(cfg, fed[..k]);
    }
  }

  lemma {:induction false} FirstPanicChunk(cfg: Config, fed: seq<string>) returns (k: nat)
    requires PanicHit(cfg, fed)
    ensures k < |fed| && !PanicHit(cfg, fed[..k]) && PanicHit(cfg, fed[..k + 1])
    decreases |fed|
  {
    var init := fed[..|fed| - 1];
    if PanicHit(cfg, init) {
      k := FirstPanicChunk(cfg, init);
      assert init[..k] == fed[..k] && init[..k + 1] == fed[..k + 1];
    } else {
      k := |fed| - 1;
      assert fed[..k + 1] == fed;
    }
  }

  lemma {:induction false} FlatPrefix(fed: seq<string>, k: nat)
    requires k <= |fed|
    ensures Flat(fed[..k]) <= Flat(fed)
  {
    assert fed == fed[..k] + fed[k..];
    FlatConcat(fed[..k], fed[k..]);
  }

  /** In one piece, a text with a panic yields no line. */
  lemma OnePiece(cfg: Config, s: string, fed: seq<string>)
    requires LineBoundPanics(cfg) && AnyOccurs(s, cfg.panics) && fed == [s]
    ensures Flat(fed) == s && StreamLines(cfg, fed) == []
  {
    assert fed[..0] == [] && fed[..1] == fed;
    assert Flat(fed) == "" + s == s;
    PanicIsSeen(cfg, fed);
    LinesBeforePanic(cfg, fed, 0);
  }

  /** Cut in two in front of the panic, it yields the lines of the first part. */
  lemma TwoPieces(cfg: Config, s: string, b: nat, first: seq<string>, fed: seq<string>)
    requires LineBoundPanics(cfg) && b <= |s| && AnyOccurs(s, cfg.panics) && !AnyOccurs(s[..b], cfg.panics)
    requires first == [s[..b]] && fed == first + [s[b..]]
    ensures Flat(fed) == s && StreamLines(cfg, fed) == TextLines(cfg, s[..b])
  {
    assert fed[..1] == first && fed[..2] == fed && first[..0] == [];
    assert Flat(first) == "" + s[..b] == s[..b];
    FlatAppend(first, s[b..]);
    assert Flat(fed) == s[..b] + s[b..] == s;
    PanicIsSeen(cfg, fed);
    PanicIsSeen(cfg, first);
    LinesBeforePanic(cfg, fed, 1);
  }

  /** Whatever the cut, the lines are those of a panic-free beginning of the text, and of all of it if none is in it. */
  lemma SomeBeginning(cfg: Config, fed: seq<string>) returns (b: nat)
    requires LineBoundPanics(cfg)
    ensures b <= |Flat(fed)| && StreamLines(cfg, fed) == TextLines(cfg, Flat(fed)[..b])
    ensures b > 0 ==> !AnyOccurs(Flat(fed)[..b], cfg.panics)
    ensures !AnyOccurs(Flat(fed), cfg.panics) ==> b == |Flat(fed)|
  {
    PanicIsSeen(cfg, fed);
    if PanicHit(cfg, fed) {
      var k := FirstPanicChunk(cfg, fed);
      LinesBeforePanic(cfg, fed, k);
      PanicIsSeen(cfg, fed[..k]);
      FlatPrefix(fed, k);
      b := |Flat(fed[..k])|;
      assert Flat(fed)[..b] == Flat(fed[..k]);
    } else {
      b := |Flat(fed)|;
      LinesIndependentOfChunking(cfg, fed);
      assert Flat(fed)[..b] == Flat(fed);
    }
  }

  predicate NoVisibleLine(s: string) {
    Clean(Complete(CR_OR_LF, s)) == []
  }

  /** All cuts of a text yield its own lines exactly when no panic is in it, or no visible line. */
  lemma WholeLinesIff(cfg: Config, s: string)
    requires LineBoundPanics(cfg)
    ensures (forall fed :: Flat(fed) == s ==> StreamLines(cfg, fed) == TextLines(cfg, s)) <==>
            !AnyOccurs(s, cfg.panics) || NoVisibleLine(s)
  {
    if !AnyOccurs(s, cfg.panics) || NoVisibleLine(s) {
      forall fed | Flat(fed) == s ensures StreamLines(cfg, fed) == TextLines(cfg, s) {
        var b := SomeBeginning(cfg, fed);
        assert s[..|s|] == s;
        if NoVisibleLine(s) {
          BeginningHasNoMore(s, b);
        }
      }
    } else {
      var one := [s];
      OnePiece(cfg, s, one);
      assert StreamLines(cfg, one) != TextLines(cfg, s);
    }
  }

  ghost predicate CutsAgree(cfg: Config, s: string) {
    forall fed, fed' :: Flat(fed) == s && Flat(fed') == s ==> StreamLines(cfg, fed) == StreamLines(cfg, fed')
  }

  /** No visible line ends in front of the panic. */
  predicate SilentBeforePanic(cfg: Config, s: string) {
    forall b :: 0 <= b <= |s| && !AnyOccurs(s[..b], cfg.panics) ==> NoVisibleLine(s[..b])
  }

  lemma SilentCutsAgree(cfg: Config, s: string)
    requires LineBoundPanics(cfg) && SilentBeforePanic(cfg, s) && AnyOccurs(s, cfg.panics)
    ensures CutsAgree(cfg, s)
  {
    forall fed | Flat(fed) == s ensures StreamLines(cfg, fed) == [] {
      var b := SomeBeginning(cfg, fed);
      assert b == 0 ==> s[..b] == "";
    }
  }

  lemma QuietCutsAgree(cfg: Config, s: string)
    requires LineBoundPanics(cfg) && !AnyOccurs(s, cfg.panics)
    ensures CutsAgree(cfg, s)
  {
    WholeLinesIff(cfg, s);
  }

  lemma LoudCutsDiffer(cfg: Config, s: string, b: nat)
    requires LineBoundPanics(cfg) && b <= |s| && AnyOccurs(s, cfg.panics) && !AnyOccurs(s[..b], cfg.panics)
    requires !NoVisibleLine(s[..b])
    ensures !CutsAgree(cfg, s)
  {
    var one, first := [s], [s[..b]];
    var two := first + [s[b..]];
    OnePiece(cfg, s, one);
    TwoPieces(cfg, s, b, first, two);
    LinesAreEvents(cfg.milestones, Clean(Complete(CR_OR_LF, s[..b])));
    Disagree(cfg, s, one, two);
  }

  lemma LinesAreEvents(ms: seq<Milestone>, lines: seq<string>)
    ensures LineEvents(ms, [], lines) == [] <==> lines == []
  {
  }

  lemma Disagree(cfg: Config, s: string, fed: seq<string>, fed': seq<string>)
    requires Flat(fed) == s && Flat(fed') == s && StreamLines(cfg, fed) != StreamLines(cfg, fed')
    ensures !CutsAgree(cfg, s)
  {
  }

  /** All cuts of a text agree exactly when no panic is in it, or no visible line ends in front of the panic. */
  lemma CutsAgreeIff(cfg: Config, s: string)
    requires LineBoundPanics(cfg)
    ensures CutsAgree(cfg, s) <==> !AnyOccurs(s, cfg.panics) || SilentBeforePanic(cfg, s)
  {
    if !AnyOccurs(s, cfg.panics) {
      QuietCutsAgree(cfg, s);
    } else if SilentBeforePanic(cfg, s) {
      SilentCutsAgree(cfg, s);
    } else {
      var b :| 0 <= b <= |s| && !AnyOccurs(s[..b], cfg.panics) && !NoVisibleLine(s[..b]);
      LoudCutsDiffer(cfg, s, b);
    }
  }

  /** What a beginning has finished, the whole has. */
  lemma BeginningHasNoMore(s: string, b: nat)
    requires b <= |s| && NoVisibleLine(s)
    ensures NoVisibleLine(s[..b])
  {
    assert s == s[..b] + s[b..];
    CompleteConcat(CR_OR_LF, s[..b], s[b..]);
    GatherConcat(CleanOne, Complete(CR_OR_LF, s[..b]), Complete(CR_OR_LF, Open(CR_OR_LF, s[..b]) + s[b..]));
  }

  /** The same text in two chunks and in one: the finished line in front of the panic comes out, or is lost. */
  lemma PanicSwallowsLine(cfg: Config)
    requires cfg == Config(["P"], "", [], [])
    ensures StreamLines(cfg, ["a\n", "P"]) == [BootData("a")] && StreamLines(cfg, ["a\nP"]) == []
  {
    var s, first := "a\nP", ["a\n"];
    OneLine(s[..2]);
    assert OccursAt(s, cfg.panics[0], 2);
    assert s[2..] == "P" && ["a\n", "P"] == first + [s[2..]];
    OnePiece(cfg, s, ["a\nP"]);
    TwoPieces(cfg, s, 2, first, ["a\n", "P"]);
    LineEventsSnoc([], [], [], "a");
    assert [] + ["a"] == ["a"];
  }

  lemma OneLine(s: string)
    requires s == "a\n"
    ensures !Occurs(s, "P") && Clean(Complete(CR_OR_LF, s)) == ["a"]
  {
    forall i ensures !OccursAt(s, "P", i) {
      if 0 <= i < 2 {
        OccursAtByElement(s, "P", i);
        assert s[i + 0] != "P"[0];
      }
    }
    var a := "a";
    FreeIsOpen(CR_OR_LF, a);
    CompleteSnoc(CR_OR_LF, a, '\n');
    assert s == a + ['\n'];
    assert [] + [a] == [a];
    assert Complete(CR_OR_LF, s) == [a];
    assert !IsSpace(a[0]) && StripRight(a) == a && StripLeft(a) == a;
    assert CleanOne(a) == [a];
    GatherSnoc(CleanOne, [], a);
  }

  /** The generator over a run of chunks, until the chunks or the device end. */
  method Consume(cfg: Config, chunks: seq<string>) returns (events: seq<Event>)
    requires DistinctPrompts(cfg.prompts)
    ensures events == StreamEvents(cfg, chunks)
  {
    events := [];
    var stream := new UartEventStream(cfg);
    var k := 0;
    assert chunks[..0] == [];
    while k < |chunks| && !stream.closed
      invariant 0 <= k <= |chunks| && stream.Valid() && fresh(stream) && stream.cfg == cfg
      invariant stream.fed == chunks[..k]
      invariant events == StreamEvents(cfg, chunks[..k])
    {
      StreamTurn(cfg, chunks, k);
      var more := stream.OnChunk(chunks[k]);
      events := events + more;
      k := k + 1;
    }
    assert chunks[..|chunks|] == chunks;
    if k < |chunks| {
      NothingAfterPanic(cfg, chunks, k);
    }
  }
}
