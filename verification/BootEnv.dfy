/**
 The boot loader's environment on a station without autoboot: what the trap, and the commands that undo it, leave in
 `bootcmd`. The environment is replayed from the history of the state machine.
 */
module BootEnv {
  import opened Sequences
  import opened BoardFsm
  import opened BootWatch
  import Text
  import EventStream

  /** What `bootcmd` holds: the product's own command, the trap, or nothing. */
  datatype Boot = Original | Trap | Unset

  datatype Vars = Vars(bootcmd: Boot, backup: Option<Boot>)

  /** `disk` is what is saved; `ram` is the copy a boot loader loads when it starts. */
  datatype Env = Env(disk: Vars, ram: Vars)

  const PRODUCT := Env(Vars(Original, None), Vars(Original, None))
  const TRAPPED := Env(Vars(Trap, Some(Original)), Vars(Trap, Some(Original)))

  /** In Linux `fw_setenv` writes to disk; in the boot loader only `saveenv` does. An empty value deletes a variable. */
  function Typed(e: Env, cmd: Command): Env {
    match cmd
    case SaveBootcmd => e.(disk := e.disk.(backup := if e.disk.bootcmd.Unset? then None else Some(e.disk.bootcmd)))
    case SetTrap => e.(disk := e.disk.(bootcmd := Trap))
    case RestoreBootcmd => e.(ram := e.ram.(bootcmd := if e.ram.backup.Some? then e.ram.backup.value else Unset))
    case DropBackup => e.(ram := e.ram.(backup := None))
    case SaveEnv => e.(disk := e.ram)
    case BootOs => e
    case TypeUser => e
    case TypePassword => e
  }

  function Apply(e: Env, f: Fact): Env {
    if f.Sent? then (if f.took then Typed(e, f.cmd) else e)
    else if f.PowerApplied? || f.Rebooted? || f.ResetPulse? then e.(ram := e.disk)
    else e
  }

  function EnvAfter(e: Env, facts: seq<Fact>): Env {
    if facts == [] then e else Apply(EnvAfter(e, facts[..|facts| - 1]), facts[|facts| - 1])
  }

  lemma EnvSnoc(e: Env, facts: seq<Fact>, f: Fact)
    ensures EnvAfter(e, facts + [f]) == Apply(EnvAfter(e, facts), f)
  {
    assert (facts + [f])[..|facts|] == facts;
  }

  lemma {:induction false} EnvConcat(e: Env, a: seq<Fact>, b: seq<Fact>)
    ensures EnvAfter(e, a + b) == EnvAfter(EnvAfter(e, a), b)
    decreases |b|
  {
    if b == [] {
      assert a + b == a;
    } else {
      var b', f := b[..|b| - 1], b[|b| - 1];
      EnvConcat(e, a, b');
      assert b == b' + [f] && a + b == (a + b') + [f];
      EnvSnoc(e, a + b', f);
    }
  }

  lemma EnvOne(e: Env, f: Fact)
    ensures EnvAfter(e, [f]) == Apply(e, f)
  {
    EnvSnoc(e, [], f);
    assert [] + [f] == [f];
  }

  // ---------------------------------------------------------------- setting the trap and undoing it

  /** Behind the trap: the loader runs into it, and what was there before is put aside. */
  lemma TrapCatches(cfg: Config, e: Env)
    requires !cfg.autoboot
    ensures var caught := EnvAfter(e, RebootFacts(cfg));
            && caught.ram == caught.disk && caught.disk.bootcmd.Trap?
            && (caught.disk.backup == Some(Original) <==> e.disk.bootcmd.Original?)
  {
    var save, trap := [Sent(SaveBootcmd, true)], [Sent(SetTrap, true)];
    assert RebootFacts(cfg) == save + trap + [Rebooted];
    EnvSnoc(e, save + trap, Rebooted);
    EnvSnoc(e, save, Sent(SetTrap, true));
    EnvOne(e, Sent(SaveBootcmd, true));
  }

  /** What the three commands that undo the trap leave on disk, heeded or not. */
  lemma UndoneIff(e: Env, h: Heed)
    ensures var after := EnvAfter(e, RestoreFacts(h)).disk;
            && (after.bootcmd.Original? <==>
                  if !h.saved then e.disk.bootcmd.Original?
                  else if !h.restored then e.ram.bootcmd.Original?
                  else e.ram.backup == Some(Original))
            && (h == HEEDED ==> after.backup == None && (after.bootcmd.Unset? <==> e.ram.backup in {None, Some(Unset)}))
  {
    var restore, drop, save :=
      Sent(RestoreBootcmd, h.restored), Sent(DropBackup, h.dropped), Sent(SaveEnv, h.saved);
    assert RestoreFacts(h) == [restore] + [drop] + [save];
    EnvSnoc(e, [restore] + [drop], save);
    EnvSnoc(e, [restore], drop);
    EnvOne(e, restore);
  }

  /** The trap and back: the product's own command is in place again exactly if the loader heeded restoring and saving. */
  lemma TrapRoundTrip(cfg: Config, e: Env, h: Heed)
    requires !cfg.autoboot && e.disk.bootcmd.Original?
    ensures var back := EnvAfter(e, RebootFacts(cfg) + [LoaderSync] + RestoreFacts(h)).disk;
            && (back.bootcmd.Original? <==> h.restored && h.saved)
            && (h == HEEDED ==> back == Vars(Original, None))
  {
    TrapCatches(cfg, e);
    EnvSnoc(e, RebootFacts(cfg), LoaderSync);
    var caught := EnvAfter(e, RebootFacts(cfg) + [LoaderSync]);
    EnvConcat(e, RebootFacts(cfg) + [LoaderSync], RestoreFacts(h));
    UndoneIff(caught, h);
  }

  // ---------------------------------------------------------------- over every history

  /** Whatever a machine did from its creation on. */
  predicate Orderly(cfg: Config, log: seq<Fact>) {
    GrewOrderly(cfg, [], log)
  }

  lemma OrderlyAt(cfg: Config, log: seq<Fact>, i: nat)
    requires Orderly(cfg, log) && i < |log|
    ensures InOrder(cfg, log, i)
  {
  }

  /** What stands in front of a boot command on a trap station. */
  lemma BeforeBoot(cfg: Config, log: seq<Fact>, i: nat) returns (h: Heed)
    requires Orderly(cfg, log) && !cfg.autoboot && i < |log| && Is(log[i], BootOs)
    ensures i >= 3 && log[i - 3..i] == RestoreFacts(h)
  {
    OrderlyAt(cfg, log, i);
    OrderlyAt(cfg, log, i - 1);
    OrderlyAt(cfg, log, i - 2);
    h := Heed(log[i - 3].took, log[i - 2].took, log[i - 1].took);
  }

  /**
   Linux is booted from the loader of a trap station with the product's own command back in place exactly if the three
   commands in front of the boot command brought it back.
   */
  predicate RestoredAt(e: Env, log: seq<Fact>, i: nat)
    requires 3 <= i <= |log| && log[i - 1].Sent? && log[i - 3].Sent?
  {
    var found := EnvAfter(e, log[..i - 3]);
    EnvAfter(e, log[..i]).disk.bootcmd.Original? <==>
    if !log[i - 1].took then found.disk.bootcmd.Original?
    else if !log[i - 3].took then found.ram.bootcmd.Original?
    else found.ram.backup == Some(Original)
  }

  lemma BootsRestoredIff(cfg: Config, e: Env, log: seq<Fact>, i: nat)
    requires Orderly(cfg, log) && !cfg.autoboot && i < |log| && Is(log[i], BootOs)
    ensures 3 <= i && Is(log[i - 3], RestoreBootcmd) && Is(log[i - 2], DropBackup) && Is(log[i - 1], SaveEnv)
    ensures RestoredAt(e, log, i)
  {
    var h := BeforeBoot(cfg, log, i);
    assert log[..i] == log[..i - 3] + RestoreFacts(h);
    EnvConcat(e, log[..i - 3], RestoreFacts(h));
    UndoneIff(EnvAfter(e, log[..i - 3]), h);
    assert log[i - 3] == log[i - 3..i][0] && log[i - 2] == log[i - 3..i][1] && log[i - 1] == log[i - 3..i][2];
  }

  /** A trap keeps the product's own command exactly if it was in place when the trap was set. */
  lemma TrapKeepsOriginalIff(cfg: Config, e: Env, log: seq<Fact>, i: nat)
    requires Orderly(cfg, log) && i < |log| && log[i] == Sent(SetTrap, true)
    ensures i >= 1
    ensures EnvAfter(e, log[..i + 1]).disk.backup == Some(Original) <==>
            EnvAfter(e, log[..i - 1]).disk.bootcmd.Original?
  {
    OrderlyAt(cfg, log, i);
    assert log[..i + 1] == log[..i - 1] + [log[i - 1]] + [log[i]];
    EnvSnoc(e, log[..i - 1] + [log[i - 1]], log[i]);
    EnvSnoc(e, log[..i - 1], log[i - 1]);
  }

  /**
   A command of the history does what it should to the product's boot command: a boot finds it restored exactly if the
   commands in front of it brought it back, and a trap keeps it exactly if it was in place.
   */
  predicate Sound(e: Env, log: seq<Fact>, i: nat)
    requires i < |log|
  {
    && (Is(log[i], BootOs) ==>
          && 3 <= i && Is(log[i - 3], RestoreBootcmd) && Is(log[i - 2], DropBackup) && Is(log[i - 1], SaveEnv)
          && RestoredAt(e, log, i))
    && (log[i] == Sent(SetTrap, true) ==>
          && i >= 1 && Is(log[i - 1], SaveBootcmd)
          && (EnvAfter(e, log[..i + 1]).disk.backup == Some(Original) <==>
                EnvAfter(e, log[..i - 1]).disk.bootcmd.Original?))
  }

  /** Every run of a fresh machine, whatever is raised, on a board with any environment. */
  method RunFromStart(cfg: Config, world: nat -> Answer, powered: bool, script: seq<Trigger>, ghost e: Env)
      returns (m: StateMachine)
    ensures fresh(m) && m.cfg == cfg && Orderly(cfg, m.log)
    ensures !cfg.autoboot ==> forall i :: 0 <= i < |m.log| ==> Sound(e, m.log, i)
    ensures cfg.autoboot ==> forall i, cmd :: 0 <= i < |m.log| && cmd in TRAPPING ==> !Is(m.log[i], cmd)
  {
    hide EnvAfter, GrewSafely;
    m := new StateMachine(cfg, world, powered);
    var clean;
    ghost var start, tr;
    clean, start, tr := m.Run(script);
    forall i, cmd | 0 <= i < |m.log| && cmd in TRAPPING && cfg.autoboot ensures !Is(m.log[i], cmd) {
      OrderlyAt(cfg, m.log, i);
    }
    forall i | 0 <= i < |m.log| && !cfg.autoboot ensures Sound(e, m.log, i) {
      OrderlyAt(cfg, m.log, i);
      if Is(m.log[i], BootOs) {
        BootsRestoredIff(cfg, e, m.log, i);
      }
      if m.log[i] == Sent(SetTrap, true) {
        TrapKeepsOriginalIff(cfg, e, m.log, i);
      }
    }
  }

  const TRAPPING: seq<Command> := [SaveBootcmd, SetTrap, RestoreBootcmd, DropBackup, SaveEnv]

  // ---------------------------------------------------------------- three ways to lose the boot command

  const TRAPPER := PINNED.(autoboot := false)

  lemma StationIsLineBound()
    ensures LineBoundConsole(STATION)
  {
  }

  /** The console shows a root prompt. */
  lemma RootPrompt()
    ensures BootWatch.ShellVerdict(STATION, ["root@"], None).Reached?
  {
    hide BootWatch.ShellVerdict, LineBoundConsole;
    StationIsLineBound();
    var heard, cfg := ["root@"], ShellStream(STATION);
    ShellReachedInText(STATION, heard);
    FlatOne(heard);
    hide Flat, AnyOccurs;
    assert OccursAt("root@", "root@", 0);
    NoPanicIn("root@");
  }

  lemma FlatOne(heard: seq<string>)
    requires |heard| == 1
    ensures heard[..1] == heard && Flat(heard) == heard[0]
  {
    assert heard[..0] == [] && Flat(heard) == "" + heard[0];
  }

  lemma NoPanicIn(s: string)
    requires 'K' !in s
    ensures !AnyOccurs(s, STATION.panics)
  {
    forall i ensures !OccursAt(s, STATION.panics[0], i) {
      if 0 <= i && i + |STATION.panics[0]| <= |s| {
        OccursAtByElement(s, STATION.panics[0], i);
        assert s[i + 0] in s;
      }
    }
  }

  lemma SilentConsole()
    ensures BootWatch.ShellVerdict(STATION, [], None).RanDry? && BootWatch.LoaderVerdict(STATION, false, [], None).RanDry?
  {
  }

  /** The probe sees the boot loader, and a shell comes up; everything works. */
  function LoaderStation(k: nat): Answer {
    Answer(Good, false, Bootloader, if k == 5 then ["root@"] else [], None)
  }

  /** The same, but the first command has no effect, and nobody notices. */
  function DeafLoader(k: nat): Answer {
    LoaderStation(k).(kind := if k == 1 then Empty else Good)
  }

  /** The same, but no shell comes up at first. */
  function SlowStation(k: nat): Answer {
    Answer(Good, false, Bootloader, if k >= 6 then ["root@"] else [], None)
  }

  /** Linux is running, and the boot loader is never heard. */
  function LinuxStation(k: nat): Answer {
    Answer(Good, false, OsUserland, [], None)
  }

  /** A trap station whose probe finds the boot loader; `boot_to_os` returns. */
  method BootOnce(world: nat -> Answer, h: Heed) returns (m: StateMachine, r: Outcome)
    requires world(0) == Answer(Good, false, Bootloader, [], None) && world(5).heard == ["root@"] && world(5).breaks == None
    requires Returned(world(1)) && Returned(world(2)) && Returned(world(3))
    requires world(4).kind.Good? && world(6).kind.Good? && world(7).kind.Good?
    requires h == Heed(Took(world(1)), Took(world(2)), Took(world(3)))
    ensures fresh(m) && m.cfg == TRAPPER && m.world == world
    ensures r.Ok? && m.state.OsUserland? && m.log == RestoreFacts(h) + [Sent(BootOs, true), ShellPrompt]
  {
    hide Trace, PowerAfter, GrewSafely, GrewOrderly, StrapsFollow, StateMachine.Smooth, AliveSince, LoaderSince,
         BootWatch.ShellVerdict, StateMachine.Completes, StateMachine.Routed, StateMachine.LeavesLive;
    RootPrompt();
    m := new StateMachine(TRAPPER, world, true);
    r := m.Fire(ToOs(None));
  }

  /** A loader that was not reached through the trap has nothing to restore: `boot_to_os` erases the boot command. */
  method RestoreErases() returns (m: StateMachine, r: Outcome)
    ensures r.Ok? && m.state.OsUserland? && EnvAfter(PRODUCT, m.log).disk.bootcmd.Unset?
  {
    m, r := BootOnce(LoaderStation, HEEDED);
    UndoneIff(PRODUCT, HEEDED);
    BootKeeps(PRODUCT, RestoreFacts(HEEDED));
  }

  /** A restoring command without effect goes unnoticed: `boot_to_os` returns, and the trap is still set. */
  method RestoreUnheeded() returns (m: StateMachine, r: Outcome)
    ensures r.Ok? && m.state.OsUserland? && !EnvAfter(TRAPPED, m.log).disk.bootcmd.Original?
  {
    var h := Heed(false, true, true);
    m, r := BootOnce(DeafLoader, h);
    UndoneIff(TRAPPED, h);
    BootKeeps(TRAPPED, RestoreFacts(h));
  }

  lemma BootKeeps(e: Env, facts: seq<Fact>)
    ensures EnvAfter(e, facts + [Sent(BootOs, true)]) == EnvAfter(e, facts)
    ensures EnvAfter(e, facts + [Sent(BootOs, true), ShellPrompt]) == EnvAfter(e, facts)
  {
    assert facts + [Sent(BootOs, true), ShellPrompt] == facts + [Sent(BootOs, true)] + [ShellPrompt];
    EnvSnoc(e, facts + [Sent(BootOs, true)], ShellPrompt);
    EnvSnoc(e, facts, Sent(BootOs, true));
  }

  method BootInVain() returns (m: StateMachine, r: Outcome)
    ensures fresh(m) && m.cfg == TRAPPER && m.world == SlowStation
    ensures r.Raised? && m.state.Bootloader? && m.clock == 6 && m.log == RestoreFacts(HEEDED) + [Sent(BootOs, true)]
  {
    hide Trace, PowerAfter, GrewSafely, GrewOrderly, StrapsFollow, StateMachine.Smooth, AliveSince, LoaderSince,
         BootWatch.ShellVerdict, StateMachine.Completes, StateMachine.Routed, StateMachine.LeavesLive;
    SilentConsole();
    m := new StateMachine(TRAPPER, SlowStation, true);
    r := m.Fire(ToOs(None));
  }

  /** A `boot_to_os` that times out behind the trap and is tried again restores twice: the boot command is erased. */
  method RetryErases() returns (m: StateMachine, first: Outcome, second: Outcome)
    ensures first.Raised? && second.Ok? && m.state.OsUserland? && EnvAfter(TRAPPED, m.log).disk.bootcmd.Unset?
  {
    hide Trace, PowerAfter, GrewSafely, GrewOrderly, StrapsFollow, StateMachine.Smooth, AliveSince, LoaderSince,
         BootWatch.ShellVerdict, StateMachine.Completes, StateMachine.Routed, StateMachine.LeavesLive, EnvAfter;
    m, first := BootInVain();
    ghost var once := m.log;
    RootPrompt();
    second := m.Fire(ToOs(None));
    assert m.log == once + RestoreFacts(HEEDED) + [Sent(BootOs, true), ShellPrompt];
    TwiceErases(once);
  }

  lemma TwiceErases(once: seq<Fact>)
    requires once == RestoreFacts(HEEDED) + [Sent(BootOs, true)]
    ensures EnvAfter(TRAPPED, once + RestoreFacts(HEEDED) + [Sent(BootOs, true), ShellPrompt]).disk.bootcmd.Unset?
  {
    var free := EnvAfter(TRAPPED, once);
    BootKeeps(TRAPPED, RestoreFacts(HEEDED));
    Restored(TRAPPED);
    EnvConcat(TRAPPED, once, RestoreFacts(HEEDED));
    UndoneIff(free, HEEDED);
    BootKeeps(TRAPPED, once + RestoreFacts(HEEDED));
  }

  lemma Restored(e: Env)
    ensures EnvAfter(e, RestoreFacts(HEEDED)).ram.backup == None
  {
    var restore, drop, save := Sent(RestoreBootcmd, true), Sent(DropBackup, true), Sent(SaveEnv, true);
    assert RestoreFacts(HEEDED) == [restore] + [drop] + [save];
    EnvSnoc(e, [restore] + [drop], save);
    EnvSnoc(e, [restore], drop);
  }

  method TrapInVain() returns (m: StateMachine, r: Outcome)
    ensures fresh(m) && m.cfg == TRAPPER && m.world == LinuxStation && m.active == DEFAULT
    ensures r.Raised? && m.state.OsUserland? && m.clock == 5 && m.log == RebootFacts(TRAPPER)
  {
    hide Trace, PowerAfter, GrewSafely, GrewOrderly, StrapsFollow, StateMachine.Smooth, AliveSince, LoaderSince,
         BootWatch.LoaderVerdict, StateMachine.Completes, StateMachine.Resumed, StateMachine.LeavesLive;
    SilentConsole();
    m := new StateMachine(TRAPPER, LinuxStation, true);
    r := m.Fire(ToBootloader(None));
  }

  /** A `boot_to_bootloader` that misses the loader and is tried again puts the trap itself aside: the command is lost. */
  method SecondTrapLoses() returns (m: StateMachine, first: Outcome, second: Outcome)
    ensures first.Raised? && second.Raised? && m.state.OsUserland?
    ensures EnvAfter(PRODUCT, m.log).disk == Vars(Trap, Some(Trap))
  {
    hide Trace, PowerAfter, GrewSafely, GrewOrderly, StrapsFollow, StateMachine.Smooth, AliveSince, LoaderSince,
         BootWatch.LoaderVerdict, StateMachine.Completes, StateMachine.Resumed, StateMachine.LeavesLive, EnvAfter;
    m, first := TrapInVain();
    SilentConsole();
    second := m.Fire(ToBootloader(None));
    assert m.log == RebootFacts(TRAPPER) + RebootFacts(TRAPPER);
    TwiceTrapped(PRODUCT);
  }

  lemma TwiceTrapped(e: Env)
    ensures EnvAfter(e, RebootFacts(TRAPPER) + RebootFacts(TRAPPER)).disk == Vars(Trap, Some(Trap))
  {
    TrapCatches(TRAPPER, e);
    EnvConcat(e, RebootFacts(TRAPPER), RebootFacts(TRAPPER));
    Overwritten(EnvAfter(e, RebootFacts(TRAPPER)));
  }

  lemma Overwritten(e: Env)
    requires e.disk.bootcmd.Trap?
    ensures EnvAfter(e, RebootFacts(TRAPPER)).disk == Vars(Trap, Some(Trap))
  {
    var save, trap := [Sent(SaveBootcmd, true)], [Sent(SetTrap, true)];
    assert RebootFacts(TRAPPER) == save + trap + [Rebooted];
    EnvSnoc(e, save + trap, Rebooted);
    EnvSnoc(e, save, Sent(SetTrap, true));
    EnvOne(e, Sent(SaveBootcmd, true));
  }
}
