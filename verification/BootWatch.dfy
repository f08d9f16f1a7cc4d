/**
 The two waits of the state machine, for the boot loader and for a shell: loops over the events of the console
 that answer prompts and end at the first decisive event.
 */
module BootWatch {
  import opened Sequences
  import opened Text
  import opened EventStream
  import Announcements

  /** What the waits look for. Without a password to give, `password` is not looked for. */
  datatype Console = Console(
    panics: seq<string>, shell: string, login: string, password: Option<string>, loader: string, interrupt: string)

  /** How a wait ends: at its prompt, at a panic, at a write that raises, or with the stream. */
  datatype Verdict = Reached | Panicked | WriteFailed | RanDry

  const TRAP := "MES Framework Trap"

  /** With `intercept`, the autoboot countdown is looked for as well. */
  function LoaderStream(con: Console, intercept: bool): Config {
    Config(con.panics, if intercept then con.interrupt else "",
           [Prompt("bootloader", con.loader), Prompt("trap", TRAP)], [])
  }

  function ShellStream(con: Console): Config {
    Config(con.panics, "",
           [Prompt("shell", con.shell), Prompt("login", con.login), Prompt("bootloader", con.loader)]
           + if con.password.Some? then [Prompt("password", con.password.value)] else [],
           [])
  }

  /** What a wait writes to the console: the interrupt character, a line feed, the user, the password, or `boot`. */
  datatype Key = Interrupt | LineFeed | User | Password | Boot

  /** What an event calls for: these writes, and then the end of the wait or nothing. */
  datatype Reaction = Reaction(keys: seq<Key>, end: Option<Verdict>)

  const IGNORED := Reaction([], None)

  /** The countdown is answered with three interrupts, a prompt with a line feed. */
  function LoaderReaction(e: Event): Reaction {
    match e
    case PanicDetected => Reaction([], Some(Panicked))
    case AutobootWindow => Reaction([Interrupt, Interrupt, Interrupt], None)
    case PromptDetected(p) => if p == "bootloader" || p == "trap" then Reaction([LineFeed], Some(Reached)) else IGNORED
    case BootData(_) => IGNORED
    case MilestoneReached(_) => IGNORED
  }

  function ShellReaction(e: Event): Reaction {
    match e
    case PanicDetected => Reaction([], Some(Panicked))
    case PromptDetected(p) =>
      if p == "shell" then Reaction([], Some(Reached))
      else if p == "login" then Reaction([User], None)
      else if p == "password" then Reaction([Password], None)
      else if p == "bootloader" then Reaction([Boot], None)
      else IGNORED
    case AutobootWindow => IGNORED
    case BootData(_) => IGNORED
    case MilestoneReached(_) => IGNORED
  }

  /** `breaks` counts the writes of the wait that work before one raises; `None` if none does. */
  predicate Raises(breaks: Option<nat>, writes: nat) {
    breaks.Some? && breaks.value < writes
  }

  function After(breaks: Option<nat>, writes: nat): Option<nat>
    requires !Raises(breaks, writes)
  {
    if breaks.Some? then Some(breaks.value - writes) else None
  }

  /** How a wait over these events ends. */
  function Walk(react: Event -> Reaction, events: seq<Event>, breaks: Option<nat>): Verdict {
    if events == [] then RanDry
    else
      var r := react(events[0]);
      if Raises(breaks, |r.keys|) then WriteFailed
      else if r.end.Some? then r.end.value
      else Walk(react, events[1..], After(breaks, |r.keys|))
  }

  /** All the writes these events call for. */
  function Keys(react: Event -> Reaction, events: seq<Event>): seq<Key> {
    if events == [] then [] else Keys(react, events[..|events| - 1]) + react(events[|events| - 1]).keys
  }

  /** The events up to and including the first that ends the wait. */
  function UpToEnd(react: Event -> Reaction, events: seq<Event>): (i: nat)
    ensures i <= |events|
  {
    if events == [] then 0 else if react(events[0]).end.Some? then 1 else 1 + UpToEnd(react, events[1..])
  }

  /** What a wait writes: what its events call for, up to its end or to the write that raises. */
  function Typed(react: Event -> Reaction, events: seq<Event>, breaks: Option<nat>): seq<Key> {
    var keys := Keys(react, events[..UpToEnd(react, events)]);
    if Raises(breaks, |keys|) then keys[..breaks.value] else keys
  }

  function LoaderVerdict(con: Console, intercept: bool, heard: seq<string>, breaks: Option<nat>): Verdict {
    Walk(LoaderReaction, StreamEvents(LoaderStream(con, intercept), heard), breaks)
  }

  function ShellVerdict(con: Console, heard: seq<string>, breaks: Option<nat>): Verdict {
    Walk(ShellReaction, StreamEvents(ShellStream(con), heard), breaks)
  }

  /** The first event that ends the wait, if there is one. */
  lemma {:induction false} UpToEndIs(react: Event -> Reaction, events: seq<Event>)
    ensures var n := UpToEnd(react, events);
            && (n > 0 ==> forall j :: 0 <= j < n - 1 ==> react(events[j]).end.None?)
            && (n < |events| ==> n > 0 && react(events[n - 1]).end.Some?)
            && (n == |events| > 0 && react(events[n - 1]).end.None? ==>
                  forall j :: 0 <= j < |events| ==> react(events[j]).end.None?)
  {
    if events != [] && react(events[0]).end.None? {
      var rest := events[1..];
      UpToEndIs(react, rest);
      assert forall j :: 0 <= j < |rest| ==> rest[j] == events[j + 1];
      var n := UpToEnd(react, events);
      forall j | 0 <= j < n - 1 ensures react(events[j]).end.None? {
        assert j > 0 ==> events[j] == rest[j - 1];
      }
      if n == |events| && react(events[n - 1]).end.None? {
        forall j | 0 <= j < |events| ensures react(events[j]).end.None? {
          assert j > 0 ==> events[j] == rest[j - 1];
        }
      }
    }
  }

  /** How far the loop is: `i` events without an end, whose keys are all typed. */
  ghost predicate Underway(react: Event -> Reaction, events: seq<Event>, breaks: Option<nat>, i: nat, typed: seq<Key>) {
    && i <= |events| && (forall j :: 0 <= j < i ==> react(events[j]).end.None?)
    && typed == Keys(react, events[..i]) && !Raises(breaks, |typed|)
  }

  lemma Started(react: Event -> Reaction, events: seq<Event>, breaks: Option<nat>)
    ensures Underway(react, events, breaks, 0, [])
  {
    assert events[..0] == [];
  }

  lemma KeysSnoc(react: Event -> Reaction, events: seq<Event>, i: nat)
    requires i < |events|
    ensures Keys(react, events[..i + 1]) == Keys(react, events[..i]) + react(events[i]).keys
  {
    assert events[..i + 1][..i] == events[..i];
  }

  lemma {:induction false} EndsAt(react: Event -> Reaction, events: seq<Event>, i: nat)
    requires i < |events| && (forall j :: 0 <= j < i ==> react(events[j]).end.None?)
    ensures UpToEnd(react, events) > i && (react(events[i]).end.Some? ==> UpToEnd(react, events) == i + 1)
    decreases i
  {
    if i > 0 {
      var rest := events[1..];
      assert rest[i - 1] == events[i] && forall j :: 0 <= j < i - 1 ==> rest[j] == events[j + 1];
      EndsAt(react, rest, i - 1);
    }
  }

  lemma {:induction false} KeysGrow(react: Event -> Reaction, events: seq<Event>, i: nat, n: nat)
    requires i <= n <= |events|
    ensures Keys(react, events[..i]) <= Keys(react, events[..n])
    decreases n
  {
    if i < n {
      KeysGrow(react, events, i, n - 1);
      KeysSnoc(react, events, n - 1);
    }
  }

  /** What the next event does: the write that raises, the end, or the next turn. */
  lemma NextEvent(react: Event -> Reaction, events: seq<Event>, breaks: Option<nat>, i: nat, typed: seq<Key>)
    requires Underway(react, events, breaks, i, typed) && i < |events|
    ensures var r := react(events[i]);
            var more := typed + r.keys;
            && (Raises(breaks, |more|) ==>
                  |typed| <= breaks.value <= |more| && Walk(react, events, breaks) == WriteFailed
                  && Typed(react, events, breaks) == more[..breaks.value])
            && (!Raises(breaks, |more|) && r.end.Some? ==>
                  Walk(react, events, breaks) == r.end.value && Typed(react, events, breaks) == more)
            && (!Raises(breaks, |more|) && r.end.None? ==> Underway(react, events, breaks, i + 1, more))
  {
    hide Walk;
    var r := react(events[i]);
    var more := typed + r.keys;
    KeysSnoc(react, events, i);
    EndsAt(react, events, i);
    KeysGrow(react, events, i + 1, UpToEnd(react, events));
    WalkFrom(react, events, breaks, i);
    WalkOn(react, events, i, Left(breaks, typed));
  }

  function Left(breaks: Option<nat>, typed: seq<Key>): Option<nat>
    requires !Raises(breaks, |typed|)
  {
    After(breaks, |typed|)
  }

  lemma {:induction false} WalkFrom(react: Event -> Reaction, events: seq<Event>, breaks: Option<nat>, i: nat)
    requires i <= |events| && (forall j :: 0 <= j < i ==> react(events[j]).end.None?)
    requires !Raises(breaks, |Keys(react, events[..i])|)
    ensures Walk(react, events, breaks) == Walk(react, events[i..], Left(breaks, Keys(react, events[..i])))
    decreases i
  {
    if i == 0 {
      assert events[0..] == events && events[..0] == [];
    } else {
      KeysSnoc(react, events, i - 1);
      WalkFrom(react, events, breaks, i - 1);
      WalkOn(react, events, i - 1, Left(breaks, Keys(react, events[..i - 1])));
    }
  }

  lemma WalkOn(react: Event -> Reaction, events: seq<Event>, i: nat, breaks: Option<nat>)
    requires i < |events|
    ensures var r := react(events[i]);
            Walk(react, events[i..], breaks) ==
            if Raises(breaks, |r.keys|) then WriteFailed
            else if r.end.Some? then r.end.value
            else Walk(react, events[i + 1..], After(breaks, |r.keys|))
  {
    assert events[i..][0] == events[i] && events[i..][1..] == events[i + 1..];
  }

  /** All events, none of which ended the wait. */
  lemma AllHeard(react: Event -> Reaction, events: seq<Event>, breaks: Option<nat>, typed: seq<Key>)
    requires Underway(react, events, breaks, |events|, typed)
    ensures Walk(react, events, breaks) == RanDry && Typed(react, events, breaks) == typed
  {
    WalkFrom(react, events, breaks, |events|);
    UpToEndIs(react, events);
    if events != [] {
      EndsAt(react, events, |events| - 1);
    }
  }

  /** Writes `keys` one by one, until one raises. */
  method Write(keys: seq<Key>, typed: seq<Key>, breaks: Option<nat>) returns (ok: bool, more: seq<Key>)
    requires !Raises(breaks, |typed|)
    ensures ok <==> !Raises(breaks, |typed + keys|)
    ensures more == if ok then typed + keys else (typed + keys)[..breaks.value]
  {
    more := typed;
    for i := 0 to |keys|
      invariant more == typed + keys[..i] && !Raises(breaks, |more|)
    {
      if breaks == Some(|more|) {
        assert (typed + keys)[..|more|] == more;
        return false, more;
      }
      more := more + [keys[i]];
    }
    ok := true;
    assert keys[..|keys|] == keys;
  }

  /** `event_wait_for_bootloader`, up to the prompt. */
  method AwaitLoader(con: Console, intercept: bool, heard: seq<string>, breaks: Option<nat>)
      returns (v: Verdict, typed: seq<Key>)
    ensures v == LoaderVerdict(con, intercept, heard, breaks)
    ensures typed == Typed(LoaderReaction, StreamEvents(LoaderStream(con, intercept), heard), breaks)
  {
    hide StreamEvents, Walk, Typed, Underway;
    var events := Consume(LoaderStream(con, intercept), heard);
    var i, ok := 0, true;
    typed := [];
    Started(LoaderReaction, events, breaks);
    while i < |events|
      invariant i <= |events| && !Raises(breaks, |typed|)
      invariant Underway(LoaderReaction, events, breaks, i, typed)
    {
      NextEvent(LoaderReaction, events, breaks, i, typed);
      assert typed + [] == typed;
      match events[i] {
        case PanicDetected =>
          return Panicked, typed;
        case AutobootWindow =>
          ok, typed := Write([Interrupt, Interrupt, Interrupt], typed, breaks);
          if !ok {
            return WriteFailed, typed;
          }
        case PromptDetected(p) =>
          if p == "bootloader" || p == "trap" {
            ok, typed := Write([LineFeed], typed, breaks);
            return if ok then Reached else WriteFailed, typed;
          }
        case BootData(_) =>
        case MilestoneReached(_) =>
      }
      i := i + 1;
    }
    AllHeard(LoaderReaction, events, breaks, typed);
    v := RanDry;
  }

  /** `event_wait_for_os_shell`: logins are answered on the way. */
  method AwaitShell(con: Console, heard: seq<string>, breaks: Option<nat>) returns (v: Verdict, typed: seq<Key>)
    ensures v == ShellVerdict(con, heard, breaks)
    ensures typed == Typed(ShellReaction, StreamEvents(ShellStream(con), heard), breaks)
  {
    hide StreamEvents, Walk, Typed, Underway;
    var events := Consume(ShellStream(con), heard);
    var i, ok := 0, true;
    typed := [];
    Started(ShellReaction, events, breaks);
    while i < |events|
      invariant i <= |events| && !Raises(breaks, |typed|)
      invariant Underway(ShellReaction, events, breaks, i, typed)
    {
      NextEvent(ShellReaction, events, breaks, i, typed);
      assert typed + [] == typed;
      match events[i] {
        case PanicDetected =>
          return Panicked, typed;
        case PromptDetected(p) =>
          if p == "shell" {
            return Reached, typed;
          }
          if p == "login" {
            ok, typed := Write([User], typed, breaks);
          } else if p == "password" {
            ok, typed := Write([Password], typed, breaks);
          } else if p == "bootloader" {
            ok, typed := Write([Boot], typed, breaks);
          }
          if !ok {
            return WriteFailed, typed;
          }
        case AutobootWindow =>
        case BootData(_) =>
        case MilestoneReached(_) =>
      }
      i := i + 1;
    }
    AllHeard(ShellReaction, events, breaks, typed);
    v := RanDry;
  }

  /** A wait ends with its first ending event, unless one of the writes up to there raises. */
  lemma WalkEnds(react: Event -> Reaction, events: seq<Event>, i: nat, breaks: Option<nat>)
    requires i < |events| && react(events[i]).end.Some? && forall j :: 0 <= j < i ==> react(events[j]).end.None?
    ensures Walk(react, events, breaks) ==
            if Raises(breaks, |Keys(react, events[..i + 1])|) then WriteFailed else react(events[i]).end.value
  {
    KeysSnoc(react, events, i);
    if !Raises(breaks, |Keys(react, events[..i])|) {
      NextEvent(react, events, breaks, i, Keys(react, events[..i]));
    } else {
      EarlierRaise(react, events, i, breaks);
    }
  }

  lemma {:induction false} EarlierRaise(react: Event -> Reaction, events: seq<Event>, i: nat, breaks: Option<nat>)
    requires i <= |events| && (forall j :: 0 <= j < i ==> react(events[j]).end.None?)
    requires Raises(breaks, |Keys(react, events[..i])|)
    ensures Walk(react, events, breaks) == WriteFailed
    decreases i
  {
    assert events[..0] == [];
    if i > 0 {
      KeysSnoc(react, events, i - 1);
      if Raises(breaks, |Keys(react, events[..i - 1])|) {
        EarlierRaise(react, events, i - 1, breaks);
      } else {
        NextEvent(react, events, breaks, i - 1, Keys(react, events[..i - 1]));
      }
    }
  }

  lemma WalkDry(react: Event -> Reaction, events: seq<Event>, breaks: Option<nat>)
    requires forall j :: 0 <= j < |events| ==> react(events[j]).end.None?
    ensures Walk(react, events, breaks) == if Raises(breaks, |Keys(react, events)|) then WriteFailed else RanDry
  {
    assert events[..|events|] == events;
    if Raises(breaks, |Keys(react, events)|) {
      EarlierRaise(react, events, |events|, breaks);
    } else {
      AllHeard(react, events, breaks, Keys(react, events));
    }
  }

  /** The prompt is reached exactly when an event ends the wait well and all writes up to there work. */
  lemma ReachedIff(react: Event -> Reaction, events: seq<Event>, breaks: Option<nat>)
    ensures Walk(react, events, breaks).Reached? <==>
            exists i :: && 0 <= i < |events| && react(events[i]).end == Some(Reached)
                        && (forall j :: 0 <= j < i ==> react(events[j]).end.None?)
                        && !Raises(breaks, |Keys(react, events[..i + 1])|)
  {
    hide Walk;
    var k := FirstEnd(react, events);
    if k < |events| {
      WalkEnds(react, events, k, breaks);
    } else {
      WalkDry(react, events, breaks);
    }
    if i :| 0 <= i < |events| && react(events[i]).end == Some(Reached)
            && forall j :: 0 <= j < i ==> react(events[j]).end.None? {
      assert i == k;
    }
  }

  /** The first event that ends the wait, if there is one. */
  lemma {:induction false} FirstEnd(react: Event -> Reaction, events: seq<Event>) returns (i: nat)
    ensures i <= |events| && forall j :: 0 <= j < i ==> react(events[j]).end.None?
    ensures i < |events| ==> react(events[i]).end.Some?
  {
    i := 0;
    while i < |events| && react(events[i]).end.None?
      invariant 0 <= i <= |events| && forall j :: 0 <= j < i ==> react(events[j]).end.None?
    {
      i := i + 1;
    }
  }

  // ---------------------------------------------------------------- what is written

  /** The event comes, and neither a panic nor one of the prompts `ends` in front of it. */
  predicate HeardBefore(events: seq<Event>, e: Event, ends: seq<string>) {
    exists j :: && 0 <= j < |events| && events[j] == e
                && forall i :: 0 <= i < j ==> !Stops(events[i], ends)
  }

  predicate Stops(e: Event, ends: seq<string>) {
    e.PanicDetected? || (e.PromptDetected? && e.ptype in ends)
  }

  lemma {:induction false} KeyIn(react: Event -> Reaction, events: seq<Event>, key: Key)
    ensures key in Keys(react, events) <==> exists j :: 0 <= j < |events| && key in react(events[j]).keys
  {
    if events != [] {
      var init := events[..|events| - 1];
      KeyIn(react, init, key);
      assert forall j :: 0 <= j < |init| ==> init[j] == events[j];
    }
  }

  /** With working writes, a key is typed exactly when the event that calls for it comes before the end of the wait. */
  lemma TypedIff(react: Event -> Reaction, events: seq<Event>, key: Key, e: Event, ends: seq<string>)
    requires forall x :: key in react(x).keys <==> x == e
    requires forall x :: react(x).end.Some? <==> Stops(x, ends)
    ensures key in Typed(react, events, None) <==> HeardBefore(events, e, ends)
  {
    hide Stops;
    var n := UpToEnd(react, events);
    var front := events[..n];
    KeyIn(react, front, key);
    UpToEndIs(react, events);
    assert forall j :: 0 <= j < n ==> front[j] == events[j];
    if HeardBefore(events, e, ends) {
      var j :| 0 <= j < |events| && events[j] == e && forall i :: 0 <= i < j ==> !Stops(events[i], ends);
      EndsAt(react, events, j);
      assert key in react(front[j]).keys;
    }
  }

  const LOADER_ENDS: seq<string> := ["bootloader", "trap"]
  const SHELL_ENDS: seq<string> := ["shell"]

  const INTERRUPTS: seq<Key> := [Interrupt, Interrupt, Interrupt]

  /** Events that do not end the wait for the boot loader call for interrupts alone, three for the countdown. */
  lemma {:induction false} OnlyInterrupts(events: seq<Event>)
    requires (forall j :: 0 <= j < |events| ==> LoaderReaction(events[j]).end.None?)
    requires multiset(events)[AutobootWindow] <= 1
    ensures Keys(LoaderReaction, events) == if AutobootWindow in events then INTERRUPTS else []
  {
    if events != [] {
      var init, e := events[..|events| - 1], events[|events| - 1];
      assert events == init + [e];
      CountSplit(init, [e], AutobootWindow);
      assert AutobootWindow in init <==> multiset(init)[AutobootWindow] > 0;
      OnlyInterrupts(init);
    }
  }

  /**
   What the wait for the boot loader writes, with working writes: three interrupts if the countdown was announced before
   the end, and a line feed if the prompt was reached; nothing else.
   */
  lemma LoaderTypes(con: Console, intercept: bool, heard: seq<string>)
    ensures var events := StreamEvents(LoaderStream(con, intercept), heard);
            Typed(LoaderReaction, events, None) ==
            (if HeardBefore(events, AutobootWindow, LOADER_ENDS) then [Interrupt, Interrupt, Interrupt] else [])
            + if LoaderVerdict(con, intercept, heard, None).Reached? then [LineFeed] else []
  {
    hide StreamEvents, Walk, HeardBefore, UpToEnd, Keys, LoaderReaction;
    var events := StreamEvents(LoaderStream(con, intercept), heard);
    Announcements.WindowInStream(LoaderStream(con, intercept), heard);
    var i := FirstEnd(LoaderReaction, events);
    var front := events[..i];
    assert events == front + events[i..];
    CountSplit(front, events[i..], AutobootWindow);
    OnlyInterrupts(front);
    InFront(events, i);
    if i < |events| {
      EndsAt(LoaderReaction, events, i);
      KeysSnoc(LoaderReaction, events, i);
      WalkEnds(LoaderReaction, events, i, None);
      EndKeys(events[i]);
    } else {
      AllHeard(LoaderReaction, events, None, Keys(LoaderReaction, events[..i]));
    }
  }

  lemma EndKeys(e: Event)
    ensures var r := LoaderReaction(e);
            r.end.Some? ==> (if r.end.value.Reached? then r.keys == [LineFeed] else r.keys == [])
  {
  }

  lemma InFront(events: seq<Event>, i: nat)
    requires i <= |events| && (forall j :: 0 <= j < i ==> LoaderReaction(events[j]).end.None?)
    requires i < |events| ==> LoaderReaction(events[i]).end.Some?
    ensures AutobootWindow in events[..i] <==> HeardBefore(events, AutobootWindow, LOADER_ENDS)
  {
    if AutobootWindow in events[..i] {
      var j :| 0 <= j < i && events[..i][j] == AutobootWindow;
      assert events[j] == AutobootWindow;
    }
    if HeardBefore(events, AutobootWindow, LOADER_ENDS) {
      var j :| 0 <= j < |events| && events[j] == AutobootWindow && forall k :: 0 <= k < j ==> !Stops(events[k], LOADER_ENDS);
      assert j < i;
      assert events[..i][j] == AutobootWindow;
    }
  }

  lemma NeverTyped(react: Event -> Reaction, events: seq<Event>, key: Key)
    requires forall x :: key !in react(x).keys
    ensures key !in Typed(react, events, None)
  {
    KeyIn(react, events[..UpToEnd(react, events)], key);
  }

  /** What the wait for a shell writes: the user at the login, the password when asked, and `boot` at the loader. */
  lemma ShellTypes(con: Console, heard: seq<string>)
    ensures var events := StreamEvents(ShellStream(con), heard);
            var typed := Typed(ShellReaction, events, None);
            && (User in typed <==> HeardBefore(events, PromptDetected("login"), SHELL_ENDS))
            && (Password in typed <==> HeardBefore(events, PromptDetected("password"), SHELL_ENDS))
            && (Boot in typed <==> HeardBefore(events, PromptDetected("bootloader"), SHELL_ENDS))
            && Interrupt !in typed && LineFeed !in typed
  {
    hide StreamEvents, Typed;
    var events := StreamEvents(ShellStream(con), heard);
    TypedIff(ShellReaction, events, User, PromptDetected("login"), SHELL_ENDS);
    TypedIff(ShellReaction, events, Password, PromptDetected("password"), SHELL_ENDS);
    TypedIff(ShellReaction, events, Boot, PromptDetected("bootloader"), SHELL_ENDS);
    NeverTyped(ShellReaction, events, Interrupt);
    NeverTyped(ShellReaction, events, LineFeed);
  }

  // ---------------------------------------------------------------- in terms of the console text

  /** With working writes, if only a panic can spoil the wait and a panic comes last, the prompt is reached iff it is there. */
  lemma ReachedIffThere(react: Event -> Reaction, events: seq<Event>)
    requires PanicDetected in events ==> PanicDetected !in events[..|events| - 1]
    requires forall i :: 0 <= i < |events| ==>
               var end := react(events[i]).end;
               end.None? || end == Some(Reached) || (events[i].PanicDetected? && end == Some(Panicked))
    ensures Walk(react, events, None).Reached? <==> exists e :: e in events && react(e).end == Some(Reached)
  {
    hide Walk;
    var i := FirstEnd(react, events);
    if i < |events| {
      WalkEnds(react, events, i, None);
      assert events[i] in events;
    } else {
      WalkDry(react, events, None);
    }
    if e :| e in events && react(e).end == Some(Reached) {
      var k :| 0 <= k < |events| && events[k] == e;
      assert i <= k;
      assert i < |events| - 1 ==> events[..|events| - 1][i] == events[i];
    }
  }

  lemma TokenReached(cfg: Config, heard: seq<string>, i: nat)
    requires DistinctPrompts(cfg.prompts) && i < |cfg.prompts|
    requires LineBoundPanics(cfg) && LineBound(CR_OR_LF, cfg.prompts[i].token)
    ensures PromptDetected(cfg.prompts[i].ptype) in StreamEvents(cfg, heard) <==>
            ShownInText(cfg, heard, cfg.prompts[i].token)
  {
    PromptInStream(cfg, heard, i);
    ShownIsInText(cfg, heard, cfg.prompts[i].token);
  }

  predicate LineBoundConsole(con: Console) {
    && LineBound(CR_OR_LF, con.shell) && LineBound(CR_OR_LF, con.loader)
    && forall k :: 0 <= k < |con.panics| ==> LineBound(CR_OR_LF, con.panics[k])
  }

  /** With working writes, the wait for a shell ends well exactly when the text shows the prompt before any panic. */
  lemma ShellReachedInText(con: Console, heard: seq<string>)
    requires LineBoundConsole(con)
    ensures ShellVerdict(con, heard, None).Reached? <==> ShownInText(ShellStream(con), heard, con.shell)
  {
    hide StreamEvents, ShownInText, Walk;
    var cfg := ShellStream(con);
    TokenReached(cfg, heard, 0);
    PanicEndsStream(cfg, heard);
    var events := StreamEvents(cfg, heard);
    ReachedIffThere(ShellReaction, events);
    assert forall e :: ShellReaction(e).end == Some(Reached) <==> e == PromptDetected("shell");
  }

  /** The wait for the boot loader likewise, with either of its two prompts. */
  lemma LoaderReachedInText(con: Console, intercept: bool, heard: seq<string>)
    requires LineBoundConsole(con)
    ensures var cfg := LoaderStream(con, intercept);
            LoaderVerdict(con, intercept, heard, None).Reached? <==>
            ShownInText(cfg, heard, con.loader) || ShownInText(cfg, heard, TRAP)
  {
    hide StreamEvents, ShownInText, Walk;
    var cfg := LoaderStream(con, intercept);
    TokenReached(cfg, heard, 0);
    TokenReached(cfg, heard, 1);
    PanicEndsStream(cfg, heard);
    var events := StreamEvents(cfg, heard);
    ReachedIffThere(LoaderReaction, events);
    assert forall e :: LoaderReaction(e).end == Some(Reached) <==>
                         e == PromptDetected("bootloader") || e == PromptDetected("trap");
  }

  /** The countdown is shown by the first `k` chunks before any panic, and no prompt by those in front of the last of them. */
  predicate CountdownBy(con: Console, heard: seq<string>, k: int) {
    && 0 < k <= |heard| && Occurs(Flat(heard[..k]), con.interrupt) && !AnyOccurs(Flat(heard[..k]), con.panics)
    && (k > 1 ==> !Occurs(Flat(heard[..k - 1]), con.loader) && !Occurs(Flat(heard[..k - 1]), TRAP))
  }

  /** The same in terms of what the stream has seen. */
  predicate CountdownSeen(con: Console, heard: seq<string>, k: int) {
    && 0 < k <= |heard| && Hit(heard[..k], con.interrupt) && !PanicHit(LoaderStream(con, true), heard[..k])
    && !Hit(heard[..k - 1], con.loader) && !Hit(heard[..k - 1], TRAP)
  }

  lemma SeenIsShown(con: Console, heard: seq<string>, k: int)
    requires LineBoundConsole(con) && LineBound(CR_OR_LF, con.interrupt)
    ensures CountdownSeen(con, heard, k) <==> CountdownBy(con, heard, k)
  {
    if 0 < k <= |heard| {
      HitIsSeen(heard[..k], con.interrupt);
      PanicIsSeen(LoaderStream(con, true), heard[..k]);
      HitIsSeen(heard[..k - 1], con.loader);
      HitIsSeen(heard[..k - 1], TRAP);
    }
  }

  lemma {:induction false} FirstHit(heard: seq<string>, tok: string, k: nat) returns (n: nat)
    requires k <= |heard| && Hit(heard[..k], tok)
    ensures n < k && !Hit(heard[..n], tok) && Hit(heard[..n + 1], tok)
    decreases k
  {
    assert k > 0;
    if Hit(heard[..k - 1], tok) {
      n := FirstHit(heard, tok, k - 1);
    } else {
      n := k - 1;
    }
  }

  /** A beginning without a panic and without a prompt holds nothing that ends the wait. */
  lemma QuietBeginning(con: Console, fed: seq<string>)
    requires !PanicHit(LoaderStream(con, true), fed)
    ensures (!Hit(fed, con.loader) && !Hit(fed, TRAP)) <==>
            forall e :: e in StreamEvents(LoaderStream(con, true), fed) ==> !Stops(e, LOADER_ENDS)
  {
    hide StreamEvents, Hit;
    var cfg := LoaderStream(con, true);
    PanicEndsStream(cfg, fed);
    PromptInStream(cfg, fed, 0);
    PromptInStream(cfg, fed, 1);
    Announcements.ShownIffHit(cfg, fed, con.loader);
    Announcements.ShownIffHit(cfg, fed, TRAP);
    assert cfg.prompts[0] == Prompt("bootloader", con.loader) && cfg.prompts[1] == Prompt("trap", TRAP);
    var es := StreamEvents(cfg, fed);
    assert Stops(PromptDetected("bootloader"), LOADER_ENDS) && Stops(PromptDetected("trap"), LOADER_ENDS);
    forall e | e in es && Stops(e, LOADER_ENDS) ensures e == PromptDetected("bootloader") || e == PromptDetected("trap") {
    }
  }

  lemma PanicStays(cfg: Config, heard: seq<string>, n: nat, k: nat)
    requires n <= k <= |heard| && !PanicHit(cfg, heard[..k])
    ensures !PanicHit(cfg, heard[..n])
  {
    if PanicHit(cfg, heard[..n]) {
      var i :| 0 <= i < |cfg.panics| && Hit(heard[..n], cfg.panics[i]);
      assert heard[..k][..n] == heard[..n];
      HitStays(heard[..k], cfg.panics[i], n);
    }
  }

  /**
   The countdown is interrupted exactly when some beginning of the console text shows it before any panic, and no chunk in
   front of the last of that beginning has completed a prompt.
   */
  lemma InterruptsIff(con: Console, heard: seq<string>)
    requires LineBoundConsole(con) && LineBound(CR_OR_LF, con.interrupt) && con.interrupt != ""
    ensures HeardBefore(StreamEvents(LoaderStream(con, true), heard), AutobootWindow, LOADER_ENDS) <==>
            exists k :: CountdownBy(con, heard, k)
  {
    hide StreamEvents, Hit, CountdownBy, LineBoundConsole, HeardBefore;
    if HeardBefore(StreamEvents(LoaderStream(con, true), heard), AutobootWindow, LOADER_ENDS) {
      var k := WhenHeard(con, heard);
      SeenIsShown(con, heard, k);
    }
    if k :| CountdownBy(con, heard, k) {
      SeenIsShown(con, heard, k);
      HeardWhen(con, heard, k);
    }
  }

  lemma WhenHeard(con: Console, heard: seq<string>) returns (k: nat)
    requires con.interrupt != ""
    requires HeardBefore(StreamEvents(LoaderStream(con, true), heard), AutobootWindow, LOADER_ENDS)
    ensures CountdownSeen(con, heard, k)
  {
    hide StreamEvents, Hit;
    var cfg, events := LoaderStream(con, true), StreamEvents(LoaderStream(con, true), heard);
    var j :| 0 <= j < |events| && events[j] == AutobootWindow && forall i :: 0 <= i < j ==> !Stops(events[i], LOADER_ENDS);
    Announcements.WindowInStream(cfg, heard);
    var m :| 0 < m <= |heard| && !PanicHit(cfg, heard[..m]) && Hit(heard[..m], con.interrupt);
    var n := FirstHit(heard, con.interrupt, m);
    k := n + 1;
    PanicStays(cfg, heard, n + 1, m);
    PanicStays(cfg, heard, n, m);
    assert heard[..n + 1] == heard[..n] + [heard[n]];
    Announcements.WindowAt(cfg, heard, n);
    var front := StreamEvents(cfg, heard[..n]);
    OnlyOnce(events, j, |front|);
    assert forall e :: e in front ==> exists i :: 0 <= i < j && events[i] == e;
    QuietBeginning(con, heard[..n]);
  }

  lemma OnlyOnce(events: seq<Event>, i: nat, j: nat)
    requires i < |events| && j < |events| && events[i] == events[j] && multiset(events)[events[i]] <= 1
    ensures i == j
  {
    if i < j {
      TwiceCounts(events, i, j);
    } else if j < i {
      TwiceCounts(events, j, i);
    }
  }

  lemma TwiceCounts(events: seq<Event>, i: nat, j: nat)
    requires i < j < |events| && events[i] == events[j]
    ensures multiset(events)[events[i]] >= 2
  {
    assert events == events[..j] + events[j..];
    CountSplit(events[..j], events[j..], events[i]);
    assert events[..j][i] == events[i] && events[j..][0] == events[i];
    assert multiset(events[..j])[events[i]] > 0 && multiset(events[j..])[events[i]] > 0;
  }

  lemma HeardWhen(con: Console, heard: seq<string>, k: nat)
    requires con.interrupt != "" && CountdownSeen(con, heard, k)
    ensures HeardBefore(StreamEvents(LoaderStream(con, true), heard), AutobootWindow, LOADER_ENDS)
  {
    hide StreamEvents, Hit;
    var cfg, events := LoaderStream(con, true), StreamEvents(LoaderStream(con, true), heard);
    var n := FirstHit(heard, con.interrupt, k);
    PanicStays(cfg, heard, n + 1, k);
    PanicStays(cfg, heard, n, k);
    assert heard[..n + 1] == heard[..n] + [heard[n]];
    Announcements.WindowAt(cfg, heard, n);
    NotYet(heard, con.loader, n, k - 1);
    NotYet(heard, TRAP, n, k - 1);
    QuietBeginning(con, heard[..n]);
    var front := StreamEvents(cfg, heard[..n]);
    forall i | 0 <= i < |front| ensures !Stops(events[i], LOADER_ENDS) {
      assert front[i] in front;
    }
  }

  lemma NotYet(heard: seq<string>, tok: string, n: nat, k: nat)
    requires n <= k <= |heard| && !Hit(heard[..k], tok)
    ensures !Hit(heard[..n], tok)
  {
    if Hit(heard[..n], tok) {
      assert heard[..k][..n] == heard[..n];
      HitStays(heard[..k], tok, n);
    }
  }

  // ---------------------------------------------------------------- answering on the way to a shell

  /** The first `k` chunks show `tok`, and neither a panic nor the shell's prompt. */
  predicate AskedBy(con: Console, heard: seq<string>, tok: string, k: int) {
    && 0 < k <= |heard| && Occurs(Flat(heard[..k]), tok)
    && !AnyOccurs(Flat(heard[..k]), con.panics) && !Occurs(Flat(heard[..k]), con.shell)
  }

  predicate AskedSeen(con: Console, heard: seq<string>, tok: string, k: int) {
    && 0 < k <= |heard| && Hit(heard[..k], tok)
    && !PanicHit(ShellStream(con), heard[..k]) && !Hit(heard[..k], con.shell)
  }

  lemma AskedIsShown(con: Console, heard: seq<string>, tok: string, k: int)
    requires LineBoundConsole(con) && LineBound(CR_OR_LF, tok)
    ensures AskedSeen(con, heard, tok, k) <==> AskedBy(con, heard, tok, k)
  {
    if 0 < k <= |heard| {
      HitIsSeen(heard[..k], tok);
      PanicIsSeen(ShellStream(con), heard[..k]);
      HitIsSeen(heard[..k], con.shell);
    }
  }

  lemma ShellPromptsDistinct(con: Console)
    ensures DistinctPrompts(ShellStream(con).prompts) && ShellStream(con).prompts[0] == Prompt("shell", con.shell)
  {
  }

  /** A beginning without a panic holds the shell's event exactly if it was seen, and nothing else that ends the wait. */
  lemma ShellBeginning(con: Console, fed: seq<string>)
    requires !PanicHit(ShellStream(con), fed)
    ensures !Hit(fed, con.shell) <==> forall e :: e in StreamEvents(ShellStream(con), fed) ==> !Stops(e, SHELL_ENDS)
  {
    hide StreamEvents, Hit, PanicHit;
    var cfg := ShellStream(con);
    ShellPromptsDistinct(con);
    PanicEndsStream(cfg, fed);
    PromptInStream(cfg, fed, 0);
    Announcements.ShownIffHit(cfg, fed, con.shell);
    assert Stops(PromptDetected("shell"), SHELL_ENDS);
    forall e | e in StreamEvents(cfg, fed) && Stops(e, SHELL_ENDS) ensures e == PromptDetected("shell") {
    }
  }

  /** A prompt on the way is heard before the end exactly if a beginning of the text shows it, and not yet the shell. */
  lemma AnsweredIff(con: Console, heard: seq<string>, i: nat)
    requires 0 < i < |ShellStream(con).prompts|
    requires LineBoundConsole(con) && LineBound(CR_OR_LF, ShellStream(con).prompts[i].token)
    ensures var p := ShellStream(con).prompts[i];
            HeardBefore(StreamEvents(ShellStream(con), heard), PromptDetected(p.ptype), SHELL_ENDS) <==>
            exists k :: AskedBy(con, heard, p.token, k)
  {
    hide StreamEvents, Hit, AskedBy, LineBoundConsole, HeardBefore;
    var p := ShellStream(con).prompts[i];
    if HeardBefore(StreamEvents(ShellStream(con), heard), PromptDetected(p.ptype), SHELL_ENDS) {
      var k := WhenAsked(con, heard, i);
      AskedIsShown(con, heard, p.token, k);
    }
    if k :| AskedBy(con, heard, p.token, k) {
      AskedIsShown(con, heard, p.token, k);
      AskedWhen(con, heard, i, k);
    }
  }

  lemma AskedWhen(con: Console, heard: seq<string>, i: nat, k: nat)
    requires 0 < i < |ShellStream(con).prompts| && AskedSeen(con, heard, ShellStream(con).prompts[i].token, k)
    ensures HeardBefore(StreamEvents(ShellStream(con), heard), PromptDetected(ShellStream(con).prompts[i].ptype), SHELL_ENDS)
  {
    hide StreamEvents, Hit, PanicHit;
    var cfg, events := ShellStream(con), StreamEvents(ShellStream(con), heard);
    var p, front := cfg.prompts[i], StreamEvents(cfg, heard[..k]);
    ShellPromptsDistinct(con);
    PromptInStream(cfg, heard[..k], i);
    Announcements.ShownIffHit(cfg, heard[..k], p.token);
    Announcements.StreamBeginning(cfg, heard, k);
    ShellBeginning(con, heard[..k]);
    var j :| 0 <= j < |front| && front[j] == PromptDetected(p.ptype);
    forall m | 0 <= m < j ensures !Stops(events[m], SHELL_ENDS) {
      assert front[m] in front;
    }
    assert events[j] == front[j];
  }

  lemma WhenAsked(con: Console, heard: seq<string>, i: nat) returns (k: nat)
    requires 0 < i < |ShellStream(con).prompts|
    requires HeardBefore(StreamEvents(ShellStream(con), heard), PromptDetected(ShellStream(con).prompts[i].ptype), SHELL_ENDS)
    ensures AskedSeen(con, heard, ShellStream(con).prompts[i].token, k)
  {
    hide StreamEvents, Hit, PanicHit;
    var cfg, events := ShellStream(con), StreamEvents(ShellStream(con), heard);
    var p := cfg.prompts[i];
    var e := PromptDetected(p.ptype);
    ShellPromptsDistinct(con);
    var j :| 0 <= j < |events| && events[j] == e && forall m :: 0 <= m < j ==> !Stops(events[m], SHELL_ENDS);
    PromptInStream(cfg, heard, i);
    PromptAtMostOnce(cfg, heard, i);
    var last :| 0 < last <= |heard| && !PanicHit(cfg, heard[..last]) && Hit(heard[..last], p.token);
    var n := FirstHit(heard, p.token, last);
    k := n + 1;
    PanicStays(cfg, heard, n + 1, last);
    PanicStays(cfg, heard, n, last);
    if Hit(heard[..k], con.shell) {
      ShellCameFirst(con, heard, i, n, j);
    }
  }

  lemma OneOf(front: seq<Event>, events: seq<Event>, j: nat)
    requires front <= events && j < |front|
    ensures events[j] in front
  {
    assert front[j] == events[j];
  }

  /** A prompt that is first seen when the shell is already there is heard behind it. */
  lemma ShellCameFirst(con: Console, heard: seq<string>, i: nat, n: nat, j: nat)
    requires 0 < i < |ShellStream(con).prompts| && n < |heard| && j < |StreamEvents(ShellStream(con), heard)|
    requires !PanicHit(ShellStream(con), heard[..n]) && !PanicHit(ShellStream(con), heard[..n + 1])
    requires !Hit(heard[..n], ShellStream(con).prompts[i].token) && Hit(heard[..n + 1], con.shell)
    requires StreamEvents(ShellStream(con), heard)[j] == PromptDetected(ShellStream(con).prompts[i].ptype)
    ensures exists m :: 0 <= m < j && Stops(StreamEvents(ShellStream(con), heard)[m], SHELL_ENDS)
  {
    hide StreamEvents, Hit, PanicHit, ChunkEvents;
    var cfg, events := ShellStream(con), StreamEvents(ShellStream(con), heard);
    var front, shell := StreamEvents(cfg, heard[..n]), PromptDetected("shell");
    ShellPromptsDistinct(con);
    Announcements.StreamBeginning(cfg, heard, n);
    PromptInStream(cfg, heard[..n], i);
    Announcements.ShownIffHit(cfg, heard[..n], cfg.prompts[i].token);
    if j < |front| {
      OneOf(front, events, j);
    }
    if Hit(heard[..n], con.shell) {
      PromptInStream(cfg, heard[..n], 0);
      Announcements.ShownIffHit(cfg, heard[..n], con.shell);
      var m :| 0 <= m < |front| && front[m] == shell;
      assert events[m] == shell;
    } else {
      assert heard[..n + 1] == heard[..n] + [heard[n]];
      Announcements.FirstPromptFirst(cfg, heard[..n], heard[n]);
      StreamSnoc(cfg, heard[..n], heard[n]);
      Announcements.StreamBeginning(cfg, heard, n + 1);
      var more := ChunkEvents(cfg, heard[..n], heard[n]);
      assert (front + more)[|front|] == shell && events[|front|] == shell;
      assert cfg.prompts[i].ptype != "shell";
    }
  }

  /**
   What the wait for a shell writes, with working writes, in terms of the console text: the user if the login is shown
   before the shell, the password if it is asked for and there is one to give, `boot` if the loader shows up.
   */
  lemma ShellAnswersInText(con: Console, heard: seq<string>)
    requires LineBoundConsole(con) && LineBound(CR_OR_LF, con.login)
    requires con.password.Some? ==> LineBound(CR_OR_LF, con.password.value)
    ensures var typed := Typed(ShellReaction, StreamEvents(ShellStream(con), heard), None);
            && (User in typed <==> exists k :: AskedBy(con, heard, con.login, k))
            && (Boot in typed <==> exists k :: AskedBy(con, heard, con.loader, k))
            && (Password in typed <==> con.password.Some? && exists k :: AskedBy(con, heard, con.password.value, k))
  {
    hide StreamEvents, Typed, HeardBefore, AskedBy, LineBound;
    var cfg := ShellStream(con);
    ShellTypes(con, heard);
    assert cfg.prompts[1] == Prompt("login", con.login) && cfg.prompts[2] == Prompt("bootloader", con.loader);
    AnsweredIff(con, heard, 1);
    AnsweredIff(con, heard, 2);
    if con.password.Some? {
      assert cfg.prompts[3] == Prompt("password", con.password.value);
      AnsweredIff(con, heard, 3);
    } else {
      NeverAsked(con, heard);
    }
  }

  lemma NeverAsked(con: Console, heard: seq<string>)
    requires con.password.None?
    ensures !HeardBefore(StreamEvents(ShellStream(con), heard), PromptDetected("password"), SHELL_ENDS)
  {
    hide StreamEvents;
    Announcements.UnknownPrompt(ShellStream(con), heard, "password");
  }
}
