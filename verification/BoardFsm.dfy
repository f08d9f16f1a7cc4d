/**
 `EmbeddedLinuxStateMachine`: routing a board between power and boot states.
 Whatever lies outside the program (supply, serial line, SSH, operator, probe) answers through `world`,
 an arbitrary function from the running number of the question to the answer.
 */
module BoardFsm {
  import opened Sequences
  import BootWatch

  datatype DutState = PowerOff | Energized | Bootloader | OsUserland | Recovery | Dirty

  /** How an interaction ended: as hoped, without the hoped-for text, or by one of three families of exceptions. */
  datatype Kind = Good | Empty | Timeout | Lost | Fault

  /**
   `yes` settles side questions: whether a raising action still took effect, or whether a port is open. `heard` is the
   console text of a wait, chunk by chunk, or the output of a command; `breaks` counts the writes of a wait that work
   before one raises, if one does; `up` says whether a transport that failed is still connected.
   */
  datatype Answer = Answer(
    kind: Kind, yes: bool, seen: DutState, heard: seq<string>, breaks: Option<nat>, up: bool := false)

  /** The command or write had its effect, whether or not it was reported. */
  predicate Took(a: Answer) {
    a.kind.Good? || a.yes
  }

  /** Nothing was raised, whatever the output. */
  predicate Returned(a: Answer) {
    a.kind.Good? || a.kind.Empty?
  }

  datatype Outcome = Ok | Raised(timeout: bool)

  /**
   What the state machine types: in Linux, the two commands that set the trap, and a login; in the boot loader, the three
   that undo the trap, and the one that boots.
   */
  datatype Command =
    | SaveBootcmd
    | SetTrap
    | RestoreBootcmd
    | DropBackup
    | SaveEnv
    | BootOs
    | TypeUser
    | TypePassword

  /**
   What happened to the board or was heard from it, or was typed and taken or not. `live` says the board was powered when
   the boot straps moved or the recovery strap was set, by pin or by hand, or cleared, by pin.
   */
  datatype Fact =
    | Sent(cmd: Command, took: bool)
    | PowerCut
    | PowerApplied
    | Straps(live: bool)
    | RecoverySet(live: bool)
    | RecoveryCleared(live: bool)
    | ResetPulse
    | Rebooted
    | Heartbeat
    | ShellPrompt
    | LoaderSync

  /**
   `mapped` holds the media with a non-empty strap map. `faithful` is the assumption that the probe never takes a
   powered board for an unpowered one, and that the operator does what the prompts ask.
   */
  datatype Config = Config(
    psu: bool, gpio: bool, resetPin: bool, recoveryPin: bool, headless: bool, autoboot: bool,
    mapped: set<string>, console: BootWatch.Console, faithful: bool)

  datatype Trigger =
    | ToPowerOff
    | ToEnergized(medium: Option<string>)
    | ToBootloader(medium: Option<string>)
    | ToOs(medium: Option<string>)
    | ToRecovery
    | MarkDirty

  const DEFAULT := "default"

  function Norm(medium: string): string {
    if medium == "" then DEFAULT else medium
  }

  function Destination(t: Trigger): DutState {
    match t
    case ToPowerOff => PowerOff
    case ToEnergized(_) => Energized
    case ToBootloader(_) => Bootloader
    case ToOs(_) => OsUserland
    case ToRecovery => Recovery
    case MarkDirty => Dirty
  }

  function Target(medium: Option<string>, active: string): string {
    if medium.Some? then medium.value else active
  }

  /** The history grew, and no boot strap moved on a powered board meanwhile. */
  predicate GrewSafely(before: seq<Fact>, after: seq<Fact>) {
    && before <= after
    && forall i :: |before| <= i < |after| ==> after[i] != Straps(true)
  }

  lemma GrewOn(a: seq<Fact>, b: seq<Fact>, c: seq<Fact>)
    requires GrewSafely(a, b) && GrewSafely(b, c)
    ensures GrewSafely(a, c)
  {
    forall i | |a| <= i < |c| ensures c[i] != Straps(true) {
      assert i < |b| ==> b[i] == c[i];
    }
  }

  /** The fact is a command of this kind. */
  predicate Is(f: Fact, cmd: Command) {
    f.Sent? && f.cmd == cmd
  }

  /**
   A command stands in its place: the trap is set right after the boot command was put aside, and on a trap station the
   board is booted from the loader right after the three commands that undo the trap.
   */
  predicate InOrder(cfg: Config, log: seq<Fact>, i: nat)
    requires i < |log|
  {
    log[i].Sent? ==>
      match log[i].cmd
      case SaveBootcmd => !cfg.autoboot
      case SetTrap => !cfg.autoboot && i > 0 && log[i - 1] == Sent(SaveBootcmd, true)
      case RestoreBootcmd => !cfg.autoboot
      case DropBackup => !cfg.autoboot && i > 0 && Is(log[i - 1], RestoreBootcmd)
      case SaveEnv => !cfg.autoboot && i > 0 && Is(log[i - 1], DropBackup)
      case BootOs => cfg.autoboot || (i > 0 && Is(log[i - 1], SaveEnv))
      case TypeUser => true
      case TypePassword => true
  }

  /** The history grew, and every new command stands in its place. */
  predicate GrewOrderly(cfg: Config, before: seq<Fact>, after: seq<Fact>) {
    before <= after && forall i :: |before| <= i < |after| ==> InOrder(cfg, after, i)
  }

  lemma OrderlyOn(cfg: Config, a: seq<Fact>, b: seq<Fact>, c: seq<Fact>)
    requires GrewOrderly(cfg, a, b) && GrewOrderly(cfg, b, c)
    ensures GrewOrderly(cfg, a, c)
  {
    forall i | |a| <= i < |c| ensures InOrder(cfg, c, i) {
      if i < |b| {
        assert InOrder(cfg, b, i) && b[i] == c[i] && (i > 0 ==> b[i - 1] == c[i - 1]);
      }
    }
  }

  lemma Grown(cfg: Config, a: seq<Fact>, b: seq<Fact>, c: seq<Fact>)
    requires GrewSafely(a, b) && GrewSafely(b, c) && GrewOrderly(cfg, a, b) && GrewOrderly(cfg, b, c)
    ensures GrewSafely(a, c) && GrewOrderly(cfg, a, c)
  {
    GrewOn(a, b, c);
    OrderlyOn(cfg, a, b, c);
  }

  lemma Unmoved(cfg: Config, log: seq<Fact>, medium: string)
    ensures GrewSafely(log, log) && GrewOrderly(cfg, log, log) && StrapsFollow(cfg, medium, medium)
  {
  }

  /** The last thing that happened, after the first `n` facts, is a sign of a living Linux. */
  predicate AliveSince(log: seq<Fact>, n: nat) {
    n < |log| && (log[|log| - 1].Heartbeat? || log[|log| - 1].ShellPrompt?)
  }

  /** The last thing that happened, after the first `n` facts, is the echo of the boot loader. */
  predicate LoaderSince(log: seq<Fact>, n: nat) {
    n < |log| && log[|log| - 1].LoaderSync?
  }

  /** The probe's verdicts; any other answer stands for an exception. */
  predicate Probes(a: Answer) {
    a.kind.Good? && !a.seen.Recovery? && !a.seen.Dirty?
  }

  function Seen(a: Answer, powered: bool, faithful: bool): DutState {
    if faithful && powered && a.seen.PowerOff? then Energized else a.seen
  }

  function Failure(a: Answer): (r: Outcome)
    ensures r.Raised?
  {
    Raised(a.kind.Timeout?)
  }

  /** Alignment probes: with a supply only a dirty state, without one every state no trigger commanded. */
  predicate ProbeDue(cfg: Config, s: DutState) {
    if cfg.psu then s.Dirty? else s.Energized? || s.OsUserland? || s.Dirty?
  }

  /** Straps can be moved to `medium` by this station. */
  predicate CanStrap(cfg: Config, medium: string) {
    cfg.gpio ==> Norm(medium) in cfg.mapped
  }

  /** The medium a trigger asks for. */
  function Wanted(t: Trigger, active: string): string {
    match t
    case ToEnergized(m) => Target(m, active)
    case ToBootloader(m) => Target(m, active)
    case ToOs(m) => Target(m, active)
    case _ => active
  }

  /** The straps can follow a change of the recorded medium. */
  predicate StrapsFollow(cfg: Config, before: string, after: string) {
    CanStrap(cfg, after) || Norm(after) == Norm(before)
  }

  /** The media a trigger names can all be strapped. */
  predicate Strappable(cfg: Config, t: Trigger) {
    match t
    case ToEnergized(m) => m.Some? ==> CanStrap(cfg, m.value)
    case ToBootloader(m) => m.Some? ==> CanStrap(cfg, m.value)
    case ToOs(m) => m.Some? ==> CanStrap(cfg, m.value)
    case _ => true
  }

  /** How often applying the straps turns to the outside: not at all if there is nothing to do or nothing it can do. */
  function StrapQuestions(cfg: Config, medium: string, active: string): nat {
    if Norm(medium) == DEFAULT && active == DEFAULT then 0
    else if cfg.gpio then (if Norm(medium) in cfg.mapped then 1 else 0)
    else if cfg.headless then 0 else 1
  }

  /** An optional power cut and, if they are moved at all, the straps. */
  function RestrapFacts(cfg: Config, cut: bool, medium: string, active: string, live: bool): seq<Fact> {
    (if cut then [PowerCut] else []) + (if StrapQuestions(cfg, medium, active) == 1 then [Straps(live)] else [])
  }

  /** What a cold start to the operating system goes through, and one to the boot loader. */
  function ColdOs(cfg: Config): seq<Fact> {
    if cfg.autoboot then [PowerApplied, LoaderSync, Sent(BootOs, true), ShellPrompt] else [PowerApplied, ShellPrompt]
  }

  function ColdLoader(cfg: Config): seq<Fact> {
    if cfg.autoboot then [PowerApplied, LoaderSync]
    else [PowerApplied, ShellPrompt, Sent(SaveBootcmd, true), Sent(SetTrap, true), Rebooted, LoaderSync]
  }

  /** A reboot into the boot loader from Linux, which on a trap station is caught by the trap. */
  function RebootFacts(cfg: Config): seq<Fact> {
    if cfg.autoboot then [Rebooted] else [Sent(SaveBootcmd, true), Sent(SetTrap, true), Rebooted]
  }

  /** A reboot typed blindly at a login prompt. */
  function SoftFacts(cfg: Config): seq<Fact> {
    if cfg.console.password.Some? then [Sent(TypeUser, true), Sent(TypePassword, true), Rebooted]
    else [Sent(TypeUser, true), Rebooted]
  }

  /** Which of the three commands that undo the trap the boot loader heeded. */
  datatype Heed = Heed(restored: bool, dropped: bool, saved: bool)

  const HEEDED := Heed(true, true, true)

  function RestoreFacts(h: Heed): seq<Fact> {
    [Sent(RestoreBootcmd, h.restored), Sent(DropBackup, h.dropped), Sent(SaveEnv, h.saved)]
  }

  /** From the boot loader to a shell; on a trap station the trap is undone first. */
  function LeaveLoader(cfg: Config, h: Heed): seq<Fact> {
    (if cfg.autoboot then [] else RestoreFacts(h)) + [Sent(BootOs, true), ShellPrompt]
  }

  /** The whole intervention of a transition to ENERGIZED that returns normally, from the aligned state `s`. */
  function EnergizeTrace(cfg: Config, s: DutState, target: string, active: string): seq<Fact> {
    if target != active || s.Recovery? then RestrapFacts(cfg, true, target, active, false) + [PowerApplied]
    else if s.PowerOff? then RestrapFacts(cfg, false, target, active, false) + [PowerApplied]
    else []
  }

  function LoaderTrace(cfg: Config, s: DutState, target: string, active: string): seq<Fact> {
    if target != active || s.Recovery? then RestrapFacts(cfg, true, target, active, false) + ColdLoader(cfg)
    else if s.Bootloader? then []
    else if s.OsUserland? then RebootFacts(cfg) + [LoaderSync]
    else if s.Energized? then (if cfg.psu then [PowerCut] + ColdLoader(cfg) else SoftFacts(cfg) + [LoaderSync])
    else ColdLoader(cfg)
  }

  /** For a running board this is the trace when nothing fails: it is only listened to, whatever medium was asked for. */
  function OsTrace(cfg: Config, s: DutState, target: string, active: string, h: Heed): seq<Fact> {
    if s.OsUserland? then [Heartbeat]
    else if s.Energized? then [ShellPrompt]
    else if s.Bootloader? then LeaveLoader(cfg, h)
    else RestrapFacts(cfg, !s.PowerOff?, target, active, false) + ColdOs(cfg)
  }

  /** A reset of a running board: the pin if there is one, a power cycle if not. */
  function ResetFacts(cfg: Config): seq<Fact> {
    if cfg.gpio && cfg.resetPin then [ResetPulse] else [PowerCut, PowerApplied]
  }

  /** From ENERGIZED: the shell shows up, or a reset and a cold start follow, the shell having been seen in vain or not. */
  predicate LoginRoute(cfg: Config, target: string, active: string, facts: seq<Fact>) {
    var cold := OsTrace(cfg, Dirty, target, active, HEEDED);
    facts == [ShellPrompt] || facts == ResetFacts(cfg) + cold || facts == [ShellPrompt] + ResetFacts(cfg) + cold
  }

  /** All the ways a transition to OS_USERLAND can return normally: power is cut only after the gentler means failed. */
  predicate OsRoute(cfg: Config, s: DutState, target: string, active: string, h: Heed, facts: seq<Fact>) {
    if s.OsUserland? then
      || facts == [Heartbeat]
      || (ResetFacts(cfg) <= facts && LoginRoute(cfg, target, active, facts[|ResetFacts(cfg)|..]))
    else if s.Energized? then LoginRoute(cfg, target, active, facts)
    else facts == OsTrace(cfg, s, target, active, h)
  }

  function Trace(cfg: Config, t: Trigger, s: DutState, active: string, h: Heed): seq<Fact> {
    match t
    case ToPowerOff => if s.PowerOff? then [] else [PowerCut]
    case ToEnergized(m) => EnergizeTrace(cfg, s, Target(m, active), active)
    case ToBootloader(m) => LoaderTrace(cfg, s, Target(m, active), active)
    case ToOs(m) => OsTrace(cfg, s, Target(m, active), active, h)
    case ToRecovery =>
      if s.Recovery? then [] else (if s.PowerOff? then [] else [PowerCut]) + RecoveryTrace(cfg)
    case MarkDirty => []
  }

  predicate HasRecoveryPin(cfg: Config) {
    cfg.gpio && cfg.recoveryPin
  }

  /** The recovery strap is set before power comes on; a pin is cleared again while it is on. */
  function RecoveryTrace(cfg: Config): seq<Fact> {
    [RecoverySet(false), PowerApplied] + if HasRecoveryPin(cfg) then [RecoveryCleared(true)] else []
  }

  function Switch(on: bool, f: Fact): bool {
    if f.PowerCut? then false else if f.PowerApplied? then true else on
  }

  function PowerAfter(on: bool, facts: seq<Fact>): bool
    decreases facts
  {
    if facts == [] then on else PowerAfter(Switch(on, facts[0]), facts[1..])
  }

  /** Replaying the power facts from `on`, all straps were moved live exactly where the trace says so. */
  predicate Physical(on: bool, facts: seq<Fact>)
    decreases facts
  {
    facts == [] || (
      && (facts[0].Straps? || facts[0].RecoverySet? || facts[0].RecoveryCleared? ==> facts[0].live == on)
      && Physical(Switch(on, facts[0]), facts[1..]))
  }

  lemma {:induction false} ReplayConcat(on: bool, a: seq<Fact>, b: seq<Fact>)
    ensures PowerAfter(on, a + b) == PowerAfter(PowerAfter(on, a), b)
    ensures Physical(on, a + b) <==> Physical(on, a) && Physical(PowerAfter(on, a), b)
    decreases a
  {
    if a == [] {
      assert a + b == b;
    } else {
      assert (a + b)[1..] == a[1..] + b;
      ReplayConcat(Switch(on, a[0]), a[1..], b);
    }
  }

  /** A cold start from an unpowered board leaves it powered and moves no strap. */
  lemma ReplayCold(cfg: Config, on: bool)
    ensures PowerAfter(on, ColdOs(cfg)) && Physical(on, ColdOs(cfg)) && Straps(true) !in ColdOs(cfg)
    ensures PowerAfter(on, ColdLoader(cfg)) && Physical(on, ColdLoader(cfg)) && Straps(true) !in ColdLoader(cfg)
  {
    var up, os, loader := [PowerApplied], ColdOs(cfg)[1..], ColdLoader(cfg)[1..];
    ReplayQuiet(os);
    ReplayQuiet(loader);
    ReplayConcat(on, up, os);
    ReplayConcat(on, up, loader);
    assert ColdOs(cfg) == up + os && ColdLoader(cfg) == up + loader;
  }

  lemma {:induction false} ReplayQuiet(facts: seq<Fact>)
    requires forall i :: 0 <= i < |facts| ==>
               || facts[i].Sent? || facts[i].ResetPulse? || facts[i].Rebooted? || facts[i].Heartbeat?
               || facts[i].ShellPrompt? || facts[i].LoaderSync?
    ensures forall on :: PowerAfter(on, facts) == on && Physical(on, facts)
  {
    if facts != [] {
      ReplayQuiet(facts[1..]);
      forall on ensures PowerAfter(on, facts) == on && Physical(on, facts) {
        assert Switch(on, facts[0]) == on;
      }
    }
  }

  lemma ReplayRestrap(cfg: Config, cut: bool, medium: string, active: string, on: bool)
    requires on ==> cut
    ensures var f := RestrapFacts(cfg, cut, medium, active, false); !PowerAfter(on, f) && Physical(on, f)
  {
    var a, b := if cut then [PowerCut] else [], if StrapQuestions(cfg, medium, active) == 1 then [Straps(false)] else [];
    ReplayConcat(on, a, b);
    assert !PowerAfter(on, a) && Physical(on, a);
    assert !PowerAfter(false, b) && Physical(false, b);
  }

  /**
   The trace of every trigger is true to the board's power: it says of every strap whether it moved with the power on,
   and no boot strap did; power is off after `power_off`, and on after every trigger to a running state if the aligned
   state had the power right.
   */
  lemma TraceIsPhysical(cfg: Config, t: Trigger, s: DutState, active: string, h: Heed, on: bool)
    requires s.PowerOff? ==> !on
    ensures Physical(on, Trace(cfg, t, s, active, h)) && Straps(true) !in Trace(cfg, t, s, active, h)
    ensures t.ToPowerOff? ==> !PowerAfter(on, Trace(cfg, t, s, active, h))
    ensures !t.ToPowerOff? && !t.MarkDirty? && (s.PowerOff? <==> !on) ==> PowerAfter(on, Trace(cfg, t, s, active, h))
  {
    hide PowerAfter, Physical, EnergizeTrace, LoaderTrace, OsTrace, RecoveryTrace;
    ReplayOff(cfg, s, on);
    if t.ToEnergized? || t.ToBootloader? || t.ToOs? {
      ReplayEnergize(cfg, s, Target(t.medium, active), active, on);
      ReplayLoader(cfg, s, Target(t.medium, active), active, on);
      ReplayOs(cfg, s, Target(t.medium, active), active, h, on);
    }
  }

  /** Doing nothing, cutting power, and the way into recovery. */
  lemma ReplayOff(cfg: Config, s: DutState, on: bool)
    requires s.PowerOff? ==> !on
    ensures PowerAfter(on, []) == on && Physical(on, []) && !PowerAfter(on, [PowerCut]) && Physical(on, [PowerCut])
    ensures var into := (if s.PowerOff? then [] else [PowerCut]) + RecoveryTrace(cfg);
            PowerAfter(on, into) && Physical(on, into) && Straps(true) !in into
  {
    assert !PowerAfter(on, [PowerCut]) && Physical(on, [PowerCut]);
    ReplayRecovery(cfg);
    ReplayConcat(on, if s.PowerOff? then [] else [PowerCut], RecoveryTrace(cfg));
  }

  lemma ReplayRecovery(cfg: Config)
    ensures PowerAfter(false, RecoveryTrace(cfg)) && Physical(false, RecoveryTrace(cfg))
  {
    var first, on, last := [RecoverySet(false)], [PowerApplied], [RecoveryCleared(true)];
    assert !PowerAfter(false, first) && Physical(false, first);
    assert PowerAfter(false, on) && Physical(false, on);
    assert PowerAfter(true, last) && Physical(true, last);
    ReplayConcat(false, first, on);
    ReplayConcat(false, first + on, last);
    assert first + on == [RecoverySet(false), PowerApplied] && first + on + [] == first + on;
  }

  /** The straps and the way up behind them, from an unpowered board or after a power cut. */
  lemma ReplayRise(cfg: Config, cut: bool, target: string, active: string, on: bool, up: seq<Fact>)
    requires (on ==> cut) && PowerAfter(false, up) && Physical(false, up) && Straps(true) !in up
    ensures var facts := RestrapFacts(cfg, cut, target, active, false) + up;
            PowerAfter(on, facts) && Physical(on, facts) && Straps(true) !in facts
  {
    hide PowerAfter, Physical;
    ReplayRestrap(cfg, cut, target, active, on);
    ReplayConcat(on, RestrapFacts(cfg, cut, target, active, false), up);
  }

  lemma ReplayEnergize(cfg: Config, s: DutState, target: string, active: string, on: bool)
    requires s.PowerOff? ==> !on
    ensures Physical(on, EnergizeTrace(cfg, s, target, active)) && Straps(true) !in EnergizeTrace(cfg, s, target, active)
    ensures (s.PowerOff? <==> !on) ==> PowerAfter(on, EnergizeTrace(cfg, s, target, active))
  {
    hide RestrapFacts;
    ReplayQuiet([]);
    var up := [PowerApplied];
    assert PowerAfter(false, up) && Physical(false, up);
    ReplayRise(cfg, true, target, active, on, up);
    if s.PowerOff? {
      ReplayRise(cfg, false, target, active, on, up);
    }
  }

  lemma ReplayLoader(cfg: Config, s: DutState, target: string, active: string, on: bool)
    requires s.PowerOff? ==> !on
    ensures Physical(on, LoaderTrace(cfg, s, target, active)) && Straps(true) !in LoaderTrace(cfg, s, target, active)
    ensures (s.PowerOff? <==> !on) ==> PowerAfter(on, LoaderTrace(cfg, s, target, active))
  {
    hide RestrapFacts, ColdLoader;
    ReplayCold(cfg, on);
    ReplayCold(cfg, false);
    ReplayRise(cfg, true, target, active, on, ColdLoader(cfg));
    ReplayQuiet([]);
    ReplayQuiet(SoftFacts(cfg) + [LoaderSync]);
    ReplayQuiet(RebootFacts(cfg) + [LoaderSync]);
    assert !PowerAfter(on, [PowerCut]) && Physical(on, [PowerCut]);
    ReplayConcat(on, [PowerCut], ColdLoader(cfg));
  }

  lemma ReplayOs(cfg: Config, s: DutState, target: string, active: string, h: Heed, on: bool)
    requires s.PowerOff? ==> !on
    ensures Physical(on, OsTrace(cfg, s, target, active, h)) && Straps(true) !in OsTrace(cfg, s, target, active, h)
    ensures (s.PowerOff? <==> !on) ==> PowerAfter(on, OsTrace(cfg, s, target, active, h))
  {
    hide PowerAfter, Physical, RestrapFacts, ColdOs;
    ReplayCold(cfg, false);
    ReplayQuiet([Heartbeat]);
    ReplayQuiet([ShellPrompt]);
    ReplayQuiet(LeaveLoader(cfg, h));
    ReplayRise(cfg, !s.PowerOff?, target, active, on, ColdOs(cfg));
  }

  /** Applying the straps returns normally; `a` answers the question, if there is one. */
  predicate StrapsTaken(cfg: Config, medium: string, active: string, a: Answer) {
    || (Norm(medium) == DEFAULT && active == DEFAULT)
    || (if cfg.gpio then Norm(medium) in cfg.mapped ==> a.kind.Good? else !cfg.headless)
  }

  /** Applying power succeeds: the supply or the operator acts, and the serial port comes back. */
  predicate Energizes(cfg: Config, first: Answer, second: Answer) {
    if cfg.psu then first.kind.Good? && second.kind.Good? else !cfg.headless && second.kind.Good?
  }

  /** Power comes on, whether or not applying it then raises. */
  predicate PowerTakes(cfg: Config, a: Answer) {
    if cfg.psu then a.kind.Good? || a.yes else !cfg.headless && (cfg.faithful || a.yes)
  }

  /** Cutting power returns normally. */
  predicate CutTaken(cfg: Config, a: Answer) {
    if cfg.psu then a.kind.Good? else !cfg.headless
  }

  /** The recovery strap is held: the pin is set, or somebody is there to press the button. */
  predicate RecoveryHeld(cfg: Config, a: Answer) {
    if HasRecoveryPin(cfg) then a.kind.Good? else !cfg.headless
  }

  const SYNC := "MES_SYNC"

  /** The boot loader echoes. */
  predicate Synced(a: Answer) {
    a.kind.Good? && Occurs(Flat(a.heard), SYNC)
  }

  function ShellVerdict(cfg: Config, a: Answer): BootWatch.Verdict {
    BootWatch.ShellVerdict(cfg.console, a.heard, a.breaks)
  }

  function LoaderVerdict(cfg: Config, a: Answer): BootWatch.Verdict {
    BootWatch.LoaderVerdict(cfg.console, cfg.autoboot, a.heard, a.breaks)
  }

  /** Nothing to complain about, whatever was asked. */
  predicate Obliging(cfg: Config, a: Answer) {
    Probes(a) && ShellVerdict(cfg, a).Reached? && LoaderVerdict(cfg, a).Reached? && Synced(a)
  }

  /** The facts after `before`, behind the `reset` they begin with. */
  lemma BehindReset(before: seq<Fact>, reset: seq<Fact>, after: seq<Fact>)
    requires before + reset <= after
    ensures before <= after && reset <= after[|before|..]
    ensures after[|before|..][|reset|..] == after[|before + reset|..]
  {
    assert after[|before|..] == reset + after[|before + reset|..];
  }

  class StateMachine {
    const cfg: Config
    const world: nat -> Answer
    var clock: nat
    var state: DutState
    var active: string
    var sshUp: bool
    var powered: bool
    var strapped: string
    /** The recovery pin is set. */
    var held: bool
    ghost var log: seq<Fact>
    /** What every trigger so far left behind. */
    ghost var trail: seq<Snap>

    constructor (cfg: Config, world: nat -> Answer, powered: bool)
      ensures this.cfg == cfg && this.world == world && this.powered == powered
      ensures clock == 0 && state == Dirty && active == DEFAULT && !sshUp && strapped == DEFAULT && !held
      ensures log == [] && trail == []
    {
      this.cfg, this.world, this.powered := cfg, world, powered;
      clock, state, active, sshUp, strapped, held, log, trail := 0, Dirty, DEFAULT, false, DEFAULT, false, [], [];
    }

    ghost function Now(ok: bool): Snap
      reads this
    {
      Snap(ok, state, powered, active, sshUp, clock, strapped, held)
    }

    /** The state machine does not take a powered board for an unpowered one. */
    predicate Trust()
      reads this
    {
      state.PowerOff? ==> !powered
    }

    /** From here on nothing outside fails, and the station has what it takes to run unattended if it has to. */
    ghost predicate Smooth()
      reads this`clock
    {
      && (cfg.headless ==> cfg.psu && cfg.gpio && cfg.recoveryPin)
      && forall k :: clock <= k ==> Obliging(cfg, world(k))
    }

    /** The state alignment ends in when it returns, asked with question number `c`. */
    function Aligned(s: DutState, on: bool, c: nat): DutState {
      if ProbeDue(cfg, s) then Seen(world(c), on, cfg.faithful) else s
    }

    /** Alignment returns and takes the board for unpowered. */
    predicate AlignsOff(s: DutState, on: bool, c: nat) {
      (ProbeDue(cfg, s) ==> Probes(world(c))) && Aligned(s, on, c).PowerOff?
    }

    predicate AlignReturns(s: DutState, c: nat) {
      ProbeDue(cfg, s) ==> Probes(world(c))
    }

    function AlignQuestions(s: DutState): nat {
      if ProbeDue(cfg, s) then 1 else 0
    }

    /** The straps stand where the recorded medium says. */
    predicate StrapsMatch()
      reads this
    {
      strapped == Norm(active)
    }

    // -------------------------------------------------------------- what the stages of a cold start need from outside

    predicate EnergizesAt(c: nat) {
      Energizes(cfg, world(c), world(c + 1))
    }

    function EnergizeQuestions(c: nat): nat {
      if !cfg.psu && cfg.headless then 0 else if cfg.psu && !world(c).kind.Good? then 1 else 2
    }

    function RecoveryQuestions(c: nat): nat {
      if !HasRecoveryPin(cfg) && cfg.headless then 0
      else if !RecoveryHeld(cfg, world(c)) then 1
      else 1 + EnergizeQuestions(c + 1) + if EnergizesAt(c + 1) && HasRecoveryPin(cfg) then 1 else 0
    }

    predicate ShellAt(c: nat) {
      ShellVerdict(cfg, world(c)).Reached?
    }

    predicate LoaderAt(c: nat) {
      LoaderVerdict(cfg, world(c)).Reached? && Synced(world(c + 1))
    }

    /** The commands that undo the trap raise nothing; whether the boot loader heeds them is not looked at. */
    predicate RestoreAt(c: nat) {
      Returned(world(c)) && Returned(world(c + 1)) && Returned(world(c + 2))
    }

    function HeedAt(c: nat): Heed {
      Heed(Took(world(c)), Took(world(c + 1)), Took(world(c + 2)))
    }

    function RestoreQuestions(): nat {
      if cfg.autoboot then 0 else 3
    }

    /** From BOOTLOADER: the trap is undone if there is one, the boot command goes out, and Linux comes up. */
    predicate ResumesAt(up: bool, c: nat) {
      var b := c + RestoreQuestions();
      && (cfg.autoboot || RestoreAt(c))
      && world(b).kind.Good? && ShellAt(b + 1) && FinalizesAt(up, b + 2)
    }

    function SoftQuestions(): nat {
      if cfg.console.password.Some? then 3 else 2
    }

    predicate SoftAt(c: nat) {
      forall k :: c <= k < c + SoftQuestions() ==> world(k).kind.Good?
    }

    /** To the boot loader from the aligned state `s`, on the medium the board already has. */
    predicate RoutesAt(s: DutState, up: bool, c: nat) {
      if s.OsUserland? then
        if cfg.autoboot then !world(c).kind.Fault? && LoaderAt(c + 1) else TrapAt(c) && LoaderAt(c + 3)
      else if s.Energized? then
        if cfg.psu then CutTaken(cfg, world(c)) && ColdLoaderAt(false, c + 1)
        else SoftAt(c) && LoaderAt(c + SoftQuestions())
      else ColdLoaderAt(up, c)
    }

    predicate FinalizesAt(up: bool, c: nat) {
      up || (world(c).kind.Good? && world(c + 1).kind.Good?)
    }

    /** Both environment writes succeed, and the reboot at most loses its transport. */
    predicate TrapAt(c: nat) {
      world(c).kind.Good? && world(c + 1).kind.Good? && !world(c + 2).kind.Fault?
    }

    predicate ColdOsAt(c: nat) {
      EnergizesAt(c) && if cfg.autoboot then LoaderAt(c + 2) && world(c + 4).kind.Good? && ShellAt(c + 5) else ShellAt(c + 2)
    }

    function ColdOsQuestions(): nat {
      if cfg.autoboot then 6 else 3
    }

    predicate ColdLoaderAt(up: bool, c: nat) {
      && EnergizesAt(c)
      && if cfg.autoboot then LoaderAt(c + 2)
         else
           var f := c + if up then 3 else 5;
           ShellAt(c + 2) && FinalizesAt(up, c + 3) && TrapAt(f) && LoaderAt(f + 3)
    }

    /** The straps are taken, after a power cut if there is one. */
    predicate StrapsAt(cut: bool, target: string, medium: string, c: nat) {
      if cut then CutTaken(cfg, world(c)) && StrapsTaken(cfg, target, medium, world(c + 1))
      else StrapsTaken(cfg, target, medium, world(c))
    }

    /** The question with which power is applied, behind cut and straps. */
    function PowerQuestion(cut: bool, target: string, medium: string, c: nat): nat {
      c + (if cut then 1 else 0) + StrapQuestions(cfg, target, medium)
    }

    /** From an unpowered board with this medium, a trigger gets as far as bringing power on. */
    predicate PowerReached(t: Trigger, medium: string, c: nat) {
      var target := Wanted(t, medium);
      match t
      case ToEnergized(_) =>
        var cut := target != medium;
        StrapsAt(cut, target, medium, c) && PowerTakes(cfg, world(PowerQuestion(cut, target, medium, c)))
      case ToBootloader(_) =>
        if target == medium then PowerTakes(cfg, world(c))
        else StrapsAt(true, target, medium, c) && PowerTakes(cfg, world(PowerQuestion(true, target, medium, c)))
      case ToOs(_) => StrapsAt(false, target, medium, c) && PowerTakes(cfg, world(PowerQuestion(false, target, medium, c)))
      case ToRecovery => RecoveryHeld(cfg, world(c)) && PowerTakes(cfg, world(c + 1))
      case _ => false
    }

    /** From an unpowered board, a trigger returns normally. */
    predicate Completes(t: Trigger, medium: string, up: bool, c: nat) {
      var target := Wanted(t, medium);
      match t
      case ToEnergized(_) =>
        var cut := target != medium;
        StrapsAt(cut, target, medium, c) && EnergizesAt(PowerQuestion(cut, target, medium, c))
      case ToBootloader(_) =>
        if target == medium then ColdLoaderAt(up, c)
        else StrapsAt(true, target, medium, c) && ColdLoaderAt(false, PowerQuestion(true, target, medium, c))
      case ToOs(_) =>
        var p := PowerQuestion(false, target, medium, c);
        StrapsAt(false, target, medium, c) && ColdOsAt(p) && FinalizesAt(up, p + ColdOsQuestions())
      case ToRecovery =>
        && RecoveryHeld(cfg, world(c)) && EnergizesAt(c + 1)
        && (HasRecoveryPin(cfg) ==> world(c + 3).kind.Good?)
      case _ => true
    }

    /** Whether the recovery pin is set after it was set with question `c`, power was applied, and it was cleared. */
    predicate HeldFrom(before: bool, c: nat) {
      if !world(c).kind.Good? then before || world(c).yes
      else !(EnergizesAt(c + 1) && (world(c + 3).kind.Good? || world(c + 3).yes))
    }

    /** Whether the recovery pin is set after `boot_to_recovery`. */
    predicate HeldAfterRecovery(s: DutState, powered: bool, before: bool, c: nat) {
      if AlignReturns(s, c) then HeldFromHere(Aligned(s, powered, c), before, c + AlignQuestions(s)) else before
    }

    /** Whether it is set after a trigger. */
    predicate HeldAfter(t: Trigger, s: DutState, powered: bool, before: bool, c: nat) {
      if t.ToRecovery? then HeldAfterRecovery(s, powered, before, c) else before
    }

    /** A trigger leaves a powered board recorded as POWER_OFF: it found the board off, brought power on, and raised. */
    predicate LeavesLive(t: Trigger, s: DutState, powered: bool, medium: string, up: bool, c: nat) {
      && AlignsOff(s, powered, c)
      && PowerReached(t, medium, c + AlignQuestions(s))
      && !Completes(t, medium, up, c + AlignQuestions(s))
    }

    /**
     How a transition to OS_USERLAND ends that finds the board in the boot loader: it returns exactly if every stage does.
     The trap is undone if there is one, then the boot command is given, and then the prompt comes up or not.
     */
    predicate Resumed(found: DutState, up: bool, c: nat, before: seq<Fact>, c': nat, after: seq<Fact>, ok: bool) {
      var b := c + RestoreQuestions();
      found.Bootloader? ==>
        && (ok <==> ResumesAt(up, c))
        && ((cfg.autoboot || RestoreAt(c)) && world(b).kind.Good? ==>
              && after == before
                          + (if cfg.autoboot then []
                             else [Sent(RestoreBootcmd, Took(world(c))), Sent(DropBackup, Took(world(c + 1))),
                                   Sent(SaveEnv, Took(world(c + 2)))])
                          + [Sent(BootOs, true)] + (if ShellAt(b + 1) then [ShellPrompt] else [])
              && (!ShellAt(b + 1) ==> c' == b + 2))
    }

    /**
     How a transition to BOOTLOADER ends that finds the board elsewhere, on the medium asked for. A running Linux is
     rebooted, on a trap station behind the trap, which stays set even if the reboot or the wait for the loader raises.
     */
    predicate Routed(
      found: DutState, up: bool, active: string, c: nat, before: seq<Fact>, c': nat, after: seq<Fact>, ok: bool)
    {
      !found.Bootloader? && !found.Recovery? ==>
        && (ok <==> RoutesAt(found, up, c))
        && (ok ==> after == before + LoaderTrace(cfg, found, active, active))
        && (found.OsUserland? && cfg.autoboot ==> after == before + [Rebooted] + if ok then [LoaderSync] else [])
        && (found.OsUserland? && !cfg.autoboot && world(c).kind.Good? && world(c + 1).kind.Good? ==>
              after == before + [Sent(SaveBootcmd, true), Sent(SetTrap, true), Rebooted] + if ok then [LoaderSync] else [])
        && (found.OsUserland? && !cfg.autoboot && TrapAt(c) && !LoaderVerdict(cfg, world(c + 3)).Reached? ==> c' == c + 4)
    }

    method Ask() returns (a: Answer)
      modifies this`clock
      ensures a == world(old(clock)) && clock == old(clock) + 1
    {
      a := world(clock);
      clock := clock + 1;
    }

    // -------------------------------------------------------------- actions

    method Align() returns (r: Outcome)
      modifies this`clock, this`state
      ensures !ProbeDue(cfg, old(state)) ==> r.Ok? && state == old(state) && clock == old(clock)
      ensures ProbeDue(cfg, old(state)) ==> clock == old(clock) + 1 && (r.Ok? <==> Probes(world(old(clock))))
      ensures (cfg.psu && !old(state).Dirty?) || old(state) in {Recovery, Bootloader, PowerOff} <==> clock == old(clock)
      ensures ProbeDue(cfg, old(state)) && r.Ok? ==> !state.Recovery?
      ensures r.Ok? ==> !state.Dirty?
      ensures r.Raised? ==> state == old(state)
      ensures cfg.faithful && old(Trust()) ==> Trust()
      ensures clock >= old(clock) && (old(Smooth()) ==> r.Ok? && Smooth())
      ensures r.Ok? ==> state == Aligned(old(state), powered, old(clock))
      ensures state.Recovery? ==> old(state).Recovery?
      ensures state.PowerOff? <==> AlignsOff(old(state), powered, old(clock))
      ensures state.PowerOff? ==> r.Ok? && clock == old(clock) + AlignQuestions(old(state))
    {
      if cfg.psu && !state.Dirty? {
        return Ok;
      }
      if state.Recovery? || state.Bootloader? || state.PowerOff? {
        return Ok;
      }
      var a := Ask();
      if !Probes(a) {
        return Failure(a);
      }
      state := Seen(a, powered, cfg.faithful);
      r := Ok;
    }

    method ApplyBootstrap(medium: string) returns (r: Outcome)
      modifies this`clock, this`strapped, this`log
      ensures old(log) <= log && (!powered ==> GrewSafely(old(log), log))
      ensures GrewOrderly(cfg, old(log), log)
      ensures r.Ok? <==> StrapsTaken(cfg, medium, active, world(old(clock)))
      ensures clock == old(clock) + StrapQuestions(cfg, medium, active)
      ensures r.Ok? && cfg.faithful ==>
                strapped == if StrapQuestions(cfg, medium, active) == 1 then Norm(medium) else old(strapped)
      ensures r.Ok? && cfg.faithful && old(StrapsMatch()) ==> (strapped == Norm(medium) <==> StrapsFollow(cfg, active, medium))
      ensures StrapQuestions(cfg, medium, active) == 0 ==> strapped == old(strapped) && log == old(log)
      ensures StrapQuestions(cfg, medium, active) == 1 ==> log == old(log) + [Straps(powered)]
      ensures clock >= old(clock) && (old(Smooth()) ==> r.Ok? && Smooth())
    {
      var m := Norm(medium);
      if m == DEFAULT && active == DEFAULT {
        return Ok;
      }
      if cfg.gpio {
        if m in cfg.mapped {
          var a := Ask();
          log := log + [Straps(powered)];
          if a.kind.Good? || a.yes {
            strapped := m;
          }
          if !a.kind.Good? {
            return Failure(a);
          }
        }
        return Ok;
      }
      if cfg.headless {
        return Raised(false);
      }
      var a := Ask();
      log := log + [Straps(powered)];
      if cfg.faithful || a.yes {
        strapped := m;
      }
      r := Ok;
    }

    method DoPowerOff() returns (r: Outcome)
      modifies this`clock, this`sshUp, this`powered, this`log
      ensures !sshUp && GrewSafely(old(log), log)
      ensures GrewOrderly(cfg, old(log), log)
      ensures r.Ok? && (cfg.psu || cfg.faithful) ==> !powered
      ensures powered ==> old(powered)
      ensures clock >= old(clock) && (old(Smooth()) ==> r.Ok? && Smooth())
      ensures r.Ok? ==> log == old(log) + [PowerCut]
      ensures r.Ok? <==> CutTaken(cfg, world(old(clock)))
      ensures r.Ok? && cfg.psu ==> world(old(clock)).kind.Good?
      ensures r.Ok? ==> clock == old(clock) + 1
    {
      sshUp := false;
      if !cfg.psu && cfg.headless {
        return Raised(false);
      }
      var a := Ask();
      log := log + [PowerCut];
      if (if cfg.psu then a.kind.Good? else cfg.faithful) || a.yes {
        powered := false;
      }
      r := if cfg.psu && !a.kind.Good? then Failure(a) else Ok;
    }

    method DoEnergize() returns (r: Outcome)
      modifies this`clock, this`powered, this`log
      ensures GrewSafely(old(log), log)
      ensures GrewOrderly(cfg, old(log), log)
      ensures r.Ok? <==> EnergizesAt(old(clock))
      ensures clock == old(clock) + EnergizeQuestions(old(clock))
      ensures r.Ok? ==> clock == old(clock) + 2
      ensures powered == (old(powered) || PowerTakes(cfg, world(old(clock))))
      ensures r.Ok? && (cfg.psu || cfg.faithful) ==> powered
      ensures clock >= old(clock) && (old(Smooth()) ==> r.Ok? && Smooth())
      ensures r.Ok? ==> log == old(log) + [PowerApplied]
      ensures r.Ok? ==> (cfg.psu ==> world(old(clock)).kind.Good?) && world(old(clock) + 1).kind.Good?
    {
      if !cfg.psu && cfg.headless {
        return Raised(false);
      }
      var a := Ask();
      log := log + [PowerApplied];
      if (if cfg.psu then a.kind.Good? else cfg.faithful) || a.yes {
        powered := true;
      }
      if cfg.psu && !a.kind.Good? {
        return Failure(a);
      }
      var b := Ask();
      r := if b.kind.Good? then Ok else Failure(b);
    }

    method DoHardwareReset() returns (r: Outcome)
      modifies this`clock, this`sshUp, this`powered, this`log
      ensures GrewSafely(old(log), log)
      ensures GrewOrderly(cfg, old(log), log)
      ensures clock >= old(clock) && (old(Smooth()) ==> r.Ok? && Smooth())
      ensures r.Ok? && !state.PowerOff? ==> log == old(log) + ResetFacts(cfg)
      ensures r.Ok? && !state.PowerOff? && cfg.gpio && cfg.resetPin ==> log == old(log) + [ResetPulse]
      ensures r.Ok? && !(cfg.gpio && cfg.resetPin) ==> log == old(log) + [PowerCut, PowerApplied]
      ensures r.Ok? && cfg.faithful && old(powered) ==> powered
    {
      if cfg.gpio && cfg.resetPin {
        if state.PowerOff? {
          return Ok;
        }
        var a := Ask();
        log := log + [ResetPulse];
        return if a.kind.Good? then Ok else Failure(a);
      }
      r := DoPowerOff();
      if r.Ok? {
        r := DoEnergize();
      }
    }

    // -------------------------------------------------------------- waiting for the board

    /** The prompt, and then the echo of a command sent to it. */
    method WaitForBootloader() returns (r: Outcome)
      modifies this`clock, this`log
      ensures GrewSafely(old(log), log)
      ensures GrewOrderly(cfg, old(log), log)
      ensures r.Ok? ==> LoaderSince(log, |old(log)|)
      ensures clock >= old(clock) && (old(Smooth()) ==> r.Ok? && Smooth())
      ensures log == old(log) + if r.Ok? then [LoaderSync] else []
      ensures r.Ok? <==> LoaderAt(old(clock))
      ensures r.Ok? ==> clock == old(clock) + 2
      ensures !LoaderVerdict(cfg, world(old(clock))).Reached? ==> clock == old(clock) + 1
      ensures r.Ok? ==>
                var b := world(old(clock) + 1); b.kind.Good? && Occurs(Flat(b.heard), "MES_SYNC")
    {
      var a := Ask();
      var v, typed := BootWatch.AwaitLoader(cfg.console, cfg.autoboot, a.heard, a.breaks);
      if !v.Reached? {
        return Raised(false);
      }
      var b := Ask();
      if !b.kind.Good? {
        return Failure(b);
      }
      if !Occurs(Flat(b.heard), SYNC) {
        return Raised(false);
      }
      log := log + [LoaderSync];
      r := Ok;
    }

    method WaitForShell() returns (r: Outcome)
      modifies this`clock, this`log
      ensures GrewSafely(old(log), log)
      ensures GrewOrderly(cfg, old(log), log)
      ensures r.Ok? ==> AliveSince(log, |old(log)|)
      ensures clock >= old(clock) && (old(Smooth()) ==> r.Ok? && Smooth())
      ensures log == old(log) + if r.Ok? then [ShellPrompt] else []
      ensures clock == old(clock) + 1
      ensures r.Ok? <==> ShellAt(old(clock))
      ensures r == Raised(true) <==> ShellVerdict(cfg, world(old(clock))).RanDry?
    {
      var a := Ask();
      var v, typed := BootWatch.AwaitShell(cfg.console, a.heard, a.breaks);
      if !v.Reached? {
        return Raised(v.RanDry?);
      }
      log := log + [ShellPrompt];
      r := Ok;
    }

    method FinalizeOsBoot() returns (r: Outcome)
      modifies this`clock, this`sshUp
      ensures r.Ok? <==> sshUp
      ensures clock >= old(clock) && (old(Smooth()) ==> r.Ok? && Smooth())
      ensures r.Ok? <==> FinalizesAt(old(sshUp), old(clock))
      ensures r.Ok? && !old(sshUp) ==> world(old(clock)).kind.Good? && world(old(clock) + 1).kind.Good?
      ensures r.Ok? ==> clock == old(clock) + if old(sshUp) then 0 else 2
    {
      if sshUp {
        return Ok;
      }
      var a := Ask();
      if !a.kind.Good? {
        return Failure(a);
      }
      var b := Ask();
      sshUp := b.kind.Good?;
      r := if sshUp then Ok else Failure(b);
    }

    /** The SSH session is up or comes up, and echoes the heartbeat. */
    predicate SshAnswers(up: bool, c: nat) {
      world(c).kind.Good? && (up || world(c + 1).kind.Good?)
    }

    function SshQuestions(up: bool, c: nat): nat {
      if up || !world(c).kind.Good? then 1 else 2
    }

    /** The SSH half of the liveness check: every exception is swallowed. */
    method SshHeartbeat() returns (alive: bool)
      modifies this`clock, this`sshUp, this`log
      ensures GrewSafely(old(log), log)
      ensures GrewOrderly(cfg, old(log), log)
      ensures alive ==> AliveSince(log, |old(log)|)
      ensures clock >= old(clock) && (old(Smooth()) ==> alive && Smooth())
      ensures log == old(log) + if alive then [Heartbeat] else []
      ensures alive <==> SshAnswers(old(sshUp), old(clock))
      ensures clock == old(clock) + SshQuestions(old(sshUp), old(clock))
      ensures alive ==> clock == old(clock) + (if old(sshUp) then 1 else 2) && world(clock - 1).kind.Good?
    {
      if !sshUp {
        var a := Ask();
        if !a.kind.Good? {
          return false;
        }
        sshUp := true;
      }
      var b := Ask();
      if b.kind.Good? {
        log := log + [Heartbeat];
        return true;
      }
      sshUp := b.up;
      alive := false;
    }

    method TryResumeExistingOs() returns (r: Outcome, alive: bool)
      modifies this`clock, this`sshUp, this`log
      ensures GrewSafely(old(log), log)
      ensures GrewOrderly(cfg, old(log), log)
      ensures alive ==> r.Ok? && AliveSince(log, |old(log)|)
      ensures clock >= old(clock) && (old(Smooth()) ==> alive && Smooth())
      ensures log == old(log) + if alive then [Heartbeat] else []
      ensures alive ==> clock > old(clock) && world(clock - 1).kind.Good?
      ensures var c := old(clock) + SshQuestions(old(sshUp), old(clock));
              && (alive <==> SshAnswers(old(sshUp), old(clock)) || (world(c).yes && world(c + 1).kind.Good?))
              && (r.Raised? <==> !SshAnswers(old(sshUp), old(clock)) && world(c).yes
                                 && (world(c + 1).kind.Timeout? || world(c + 1).kind.Fault?))
    {
      alive := SshHeartbeat();
      if alive {
        return Ok, true;
      }
      var port := Ask();
      if !port.yes {
        return Ok, false;
      }
      var b := Ask();
      if b.kind.Good? {
        log := log + [Heartbeat];
        return Ok, true;
      }
      r := if b.kind.Empty? || b.kind.Lost? then Ok else Failure(b);
    }

    method TryHotLogin() returns (r: Outcome, alive: bool)
      modifies this`clock, this`sshUp, this`log
      ensures GrewSafely(old(log), log)
      ensures GrewOrderly(cfg, old(log), log)
      ensures alive ==> r.Ok? && sshUp && AliveSince(log, |old(log)|)
      ensures clock >= old(clock) && (old(Smooth()) ==> alive && Smooth())
      ensures alive ==> log == old(log) + [ShellPrompt]
      ensures log == old(log) || log == old(log) + [ShellPrompt]
      ensures r != Raised(true)
      ensures alive <==> ShellAt(old(clock)) && FinalizesAt(old(sshUp), old(clock) + 1)
      ensures ShellVerdict(cfg, world(old(clock))).RanDry? ==> r.Ok?
    {
      r := WaitForShell();
      if r.Ok? {
        r := FinalizeOsBoot();
      }
      alive := r.Ok?;
      if r == Raised(true) {
        r := Ok;
      }
    }

    /** A reboot command whose transport may die under it. */
    method RebootDut() returns (r: Outcome)
      modifies this`clock, this`sshUp, this`log
      ensures GrewSafely(old(log), log)
      ensures GrewOrderly(cfg, old(log), log)
      ensures r.Ok? ==> !sshUp
      ensures clock >= old(clock) && (old(Smooth()) ==> r.Ok? && Smooth())
      ensures log == old(log) + [Rebooted]
      ensures r.Raised? <==> world(old(clock)).kind.Fault?
      ensures clock == old(clock) + 1
    {
      var a := Ask();
      log := log + [Rebooted];
      if a.kind.Fault? {
        return Raised(false);
      }
      sshUp := false;
      r := Ok;
    }

    /** One command or write. A checked one raises whenever it was not answered as hoped. */
    method Send(cmd: Command, checked: bool) returns (r: Outcome)
      requires InOrder(cfg, log + [Sent(cmd, true)], |log|)
      modifies this`clock, this`log
      ensures GrewSafely(old(log), log) && GrewOrderly(cfg, old(log), log)
      ensures log == old(log) + [Sent(cmd, Took(world(old(clock))))] && clock == old(clock) + 1
      ensures r.Ok? <==> if checked then world(old(clock)).kind.Good? else Returned(world(old(clock)))
      ensures old(Smooth()) ==> r.Ok? && Smooth()
    {
      var a := Ask();
      log := log + [Sent(cmd, Took(a))];
      r := if a.kind.Good? || (!checked && a.kind.Empty?) then Ok else Failure(a);
    }

    method SetTrapAndReboot() returns (r: Outcome)
      requires !cfg.autoboot
      modifies this`clock, this`sshUp, this`log
      ensures GrewSafely(old(log), log) && GrewOrderly(cfg, old(log), log)
      ensures clock >= old(clock) && (old(Smooth()) ==> r.Ok? && Smooth())
      ensures world(old(clock)).kind.Good? && world(old(clock) + 1).kind.Good? ==>
                log == old(log) + RebootFacts(cfg)
      ensures r.Ok? ==> log == old(log) + RebootFacts(cfg) && !sshUp && clock == old(clock) + 3
      ensures r.Ok? <==> TrapAt(old(clock))
    {
      hide GrewSafely, GrewOrderly, Smooth;
      r := Send(SaveBootcmd, true);
      if r.Raised? {
        sshUp := sshUp && world(clock - 1).up;
        return;
      }
      ghost var saved := log;
      r := Send(SetTrap, true);
      Grown(cfg, old(log), saved, log);
      if r.Raised? {
        sshUp := sshUp && world(clock - 1).up;
        return;
      }
      ghost var trapped := log;
      r := RebootDut();
      Grown(cfg, old(log), trapped, log);
    }

    /** `_restore_uboot_trap`: none of the three results is looked at. */
    method RestoreTrap() returns (r: Outcome)
      requires !cfg.autoboot
      modifies this`clock, this`log
      ensures GrewSafely(old(log), log) && GrewOrderly(cfg, old(log), log)
      ensures clock >= old(clock) && (old(Smooth()) ==> r.Ok? && Smooth())
      ensures r.Ok? ==> log == old(log) + RestoreFacts(HeedAt(old(clock))) && clock == old(clock) + 3
      ensures r.Ok? <==> RestoreAt(old(clock))
    {
      hide GrewSafely, GrewOrderly, Smooth;
      r := Send(RestoreBootcmd, false);
      ghost var one := log;
      if r.Ok? {
        r := Send(DropBackup, false);
        Grown(cfg, old(log), one, log);
      }
      ghost var two := log;
      if r.Ok? {
        r := Send(SaveEnv, false);
        Grown(cfg, old(log), two, log);
      }
    }

    /** `event_boot_from_bootloader_to_os`. */
    method BootFromLoader() returns (r: Outcome)
      requires cfg.autoboot || (log != [] && Is(log[|log| - 1], SaveEnv))
      modifies this`clock, this`log
      ensures GrewSafely(old(log), log) && GrewOrderly(cfg, old(log), log)
      ensures clock >= old(clock) && (old(Smooth()) ==> r.Ok? && Smooth())
      ensures r.Ok? ==> log == old(log) + [Sent(BootOs, true), ShellPrompt] && clock == old(clock) + 2
      ensures log == old(log) + [Sent(BootOs, Took(world(old(clock))))] + if r.Ok? then [ShellPrompt] else []
      ensures world(old(clock)).kind.Good? ==> clock == old(clock) + 2
      ensures r.Ok? <==> world(old(clock)).kind.Good? && ShellAt(old(clock) + 1)
    {
      hide GrewSafely, GrewOrderly, Smooth, ShellAt;
      r := Send(BootOs, true);
      ghost var sent := log;
      if r.Ok? {
        r := WaitForShell();
        Grown(cfg, old(log), sent, log);
      }
    }

    method TypeReboot() returns (r: Outcome)
      modifies this`clock, this`log
      ensures log == old(log) + [Rebooted] && clock == old(clock) + 1 && (r.Ok? <==> world(old(clock)).kind.Good?)
      ensures GrewSafely(old(log), log) && GrewOrderly(cfg, old(log), log)
      ensures old(Smooth()) ==> r.Ok? && Smooth()
    {
      var a := Ask();
      log := log + [Rebooted];
      r := if a.kind.Good? then Ok else Failure(a);
    }

    /** `_do_soft_reboot`. */
    method SoftReboot() returns (r: Outcome)
      modifies this`clock, this`log
      ensures GrewSafely(old(log), log) && GrewOrderly(cfg, old(log), log)
      ensures clock >= old(clock) && (old(Smooth()) ==> r.Ok? && Smooth())
      ensures r.Ok? ==> log == old(log) + SoftFacts(cfg) && clock == old(clock) + SoftQuestions()
      ensures r.Ok? <==> SoftAt(old(clock))
    {
      hide GrewSafely, GrewOrderly, Smooth;
      r := Send(TypeUser, true);
      if r.Ok? && cfg.console.password.Some? {
        ghost var user := log;
        r := Send(TypePassword, true);
        Grown(cfg, old(log), user, log);
      }
      if r.Ok? {
        ghost var typed := log;
        r := TypeReboot();
        Grown(cfg, old(log), typed, log);
      }
    }

    // -------------------------------------------------------------- boot strategies

    /** `AutobootStrategy` or `TrapRebootStrategy`, by configuration. */
    method ColdBootToBootloader() returns (r: Outcome)
      modifies this`clock, this`sshUp, this`powered, this`log
      ensures GrewSafely(old(log), log)
      ensures GrewOrderly(cfg, old(log), log)
      ensures r.Ok? ==> LoaderSince(log, |old(log)|)
      ensures clock >= old(clock) && (old(Smooth()) ==> r.Ok? && Smooth())
      ensures r.Ok? ==> log == old(log) + ColdLoader(cfg)
      ensures powered == (old(powered) || PowerTakes(cfg, world(old(clock))))
      ensures r.Ok? && (cfg.psu || cfg.faithful) ==> powered
      ensures r.Ok? <==> ColdLoaderAt(old(sshUp), old(clock))
    {
      hide PowerTakes, EnergizesAt, ShellAt, LoaderAt, FinalizesAt, TrapAt, LoaderVerdict, Synced, Smooth, GrewSafely,
           GrewOrderly;
      r := DoEnergize();
      if r.Ok? && !cfg.autoboot {
        ghost var up := log;
        r := TrapFromShell();
        Grown(cfg, old(log), up, log);
      }
      if r.Ok? {
        ghost var rising := log;
        r := WaitForBootloader();
        Grown(cfg, old(log), rising, log);
      }
    }

    /** The middle of the trap strategy: up to a shell, and back behind the trap. */
    method TrapFromShell() returns (r: Outcome)
      requires !cfg.autoboot
      modifies this`clock, this`sshUp, this`log
      ensures GrewSafely(old(log), log) && GrewOrderly(cfg, old(log), log)
      ensures clock >= old(clock) && (old(Smooth()) ==> r.Ok? && Smooth())
      ensures var f := old(clock) + if old(sshUp) then 1 else 3;
              && (r.Ok? <==> ShellAt(old(clock)) && FinalizesAt(old(sshUp), old(clock) + 1) && TrapAt(f))
              && (r.Ok? ==> clock == f + 3)
      ensures r.Ok? ==> log == old(log) + [ShellPrompt, Sent(SaveBootcmd, true), Sent(SetTrap, true), Rebooted]
    {
      hide ShellVerdict, ShellAt, FinalizesAt, TrapAt, Smooth, GrewSafely, GrewOrderly;
      r := WaitForShell();
      if r.Ok? {
        r := FinalizeOsBoot();
      }
      if r.Ok? {
        ghost var shell := log;
        r := SetTrapAndReboot();
        Grown(cfg, old(log), shell, log);
      }
    }

    method ColdBootToOs() returns (r: Outcome)
      modifies this`clock, this`powered, this`log
      ensures GrewSafely(old(log), log)
      ensures GrewOrderly(cfg, old(log), log)
      ensures r.Ok? ==> AliveSince(log, |old(log)|)
      ensures clock >= old(clock) && (old(Smooth()) ==> r.Ok? && Smooth())
      ensures r.Ok? ==> log == old(log) + ColdOs(cfg)
      ensures powered == (old(powered) || PowerTakes(cfg, world(old(clock))))
      ensures r.Ok? && (cfg.psu || cfg.faithful) ==> powered
      ensures r.Ok? <==> ColdOsAt(old(clock))
      ensures r.Ok? ==> clock == old(clock) + ColdOsQuestions()
    {
      hide ShellVerdict, LoaderVerdict, Synced, PowerTakes, EnergizesAt, ShellAt, LoaderAt;
      r := DoEnergize();
      if r.Ok? && cfg.autoboot {
        r := WaitForBootloader();
        if r.Ok? {
          r := BootFromLoader();
        }
        return;
      }
      if r.Ok? {
        r := WaitForShell();
      }
    }

    method ResumeBootloaderToOs() returns (r: Outcome)
      modifies this`clock, this`log
      ensures GrewSafely(old(log), log) && GrewOrderly(cfg, old(log), log)
      ensures r.Ok? ==> AliveSince(log, |old(log)|)
      ensures clock >= old(clock) && (old(Smooth()) ==> r.Ok? && Smooth())
      ensures r.Ok? ==> log == old(log) + LeaveLoader(cfg, HeedAt(old(clock)))
      ensures r.Ok? ==> clock == old(clock) + RestoreQuestions() + 2
      ensures var b := old(clock) + RestoreQuestions();
              && (r.Ok? <==> (cfg.autoboot || RestoreAt(old(clock))) && world(b).kind.Good? && ShellAt(b + 1))
              && ((cfg.autoboot || RestoreAt(old(clock))) && world(b).kind.Good? ==>
                    log == old(log) + (if cfg.autoboot then [] else RestoreFacts(HeedAt(old(clock)))) + [Sent(BootOs, true)]
                           + if ShellAt(b + 1) then [ShellPrompt] else [])
              && ((cfg.autoboot || RestoreAt(old(clock))) && world(b).kind.Good? ==> clock == b + 2)
    {
      hide ShellVerdict, ShellAt, Smooth;
      if !cfg.autoboot {
        r := RestoreTrap();
        if r.Raised? {
          return;
        }
      }
      ghost var before := log;
      r := BootFromLoader();
      OrderlyOn(cfg, old(log), before, log);
    }

    // -------------------------------------------------------------- transitions

    method HwPowerOff() returns (r: Outcome)
      modifies this`clock, this`state, this`sshUp, this`powered, this`log
      ensures GrewSafely(old(log), log)
      ensures GrewOrderly(cfg, old(log), log)
      ensures r.Ok? && cfg.faithful && old(Trust()) ==> !powered
      ensures AlignsOff(old(state), old(powered), old(clock)) ==>
                r.Ok? && clock == old(clock) + AlignQuestions(old(state)) && powered == old(powered) && log == old(log)
      ensures clock >= old(clock) && (old(Smooth()) ==> r.Ok? && Smooth())
      ensures r.Ok? ==> log == old(log) + Trace(cfg, ToPowerOff, Aligned(old(state), old(powered), old(clock)), active, HEEDED)
      ensures state.PowerOff? <==> AlignsOff(old(state), old(powered), old(clock))
      ensures state.PowerOff? ==> r.Ok? && powered == old(powered)
      ensures state.Recovery? ==> old(state).Recovery?
    {
      r := Align();
      if r.Raised? || state.PowerOff? {
        return;
      }
      r := DoPowerOff();
    }

    /** An optional power cut, then the straps and the recorded medium, ahead of a cold start. */
    method Restrap(medium: string, cut: bool) returns (r: Outcome)
      modifies this`clock, this`sshUp, this`powered, this`log, this`strapped, this`active
      ensures old(log) <= log && (cfg.faithful && (cut || !old(powered)) ==> GrewSafely(old(log), log))
      ensures GrewOrderly(cfg, old(log), log)
      ensures active == if r.Ok? then medium else old(active)
      ensures r.Ok? && cfg.faithful && old(StrapsMatch()) ==> (StrapsMatch() <==> StrapsFollow(cfg, old(active), active))
      ensures cut && r.Ok? && cfg.faithful ==> !powered
      ensures powered ==> old(powered)
      ensures sshUp == (old(sshUp) && !cut)
      ensures r.Ok? <==> StrapsAt(cut, medium, old(active), old(clock))
      ensures r.Ok? ==> clock == PowerQuestion(cut, medium, old(active), old(clock))
      ensures !cut ==>
                && powered == old(powered)
                && (StrapQuestions(cfg, medium, old(active)) == 1 ==> log == old(log) + [Straps(powered)])
      ensures clock >= old(clock) && (old(Smooth()) ==> r.Ok? && Smooth())
      ensures r.Ok? && (cut ==> cfg.faithful) ==>
                log == old(log) + RestrapFacts(cfg, cut, medium, old(active), !cut && powered)
    {
      if cut {
        r := DoPowerOff();
        if r.Raised? {
          return;
        }
      }
      r := ApplyBootstrap(medium);
      if r.Ok? {
        active := medium;
      }
    }

    /** How a transition ends that finds the board unpowered: exactly when it returns, and exactly when it raises live. */
    predicate OffOutcome(t: Trigger, s: Snap, y: Snap) {
      && (y.state.PowerOff? <==> AlignsOff(s.state, s.powered, s.clock))
      && (y.state.PowerOff? ==>
            && (y.ok <==> Completes(t, s.active, s.sshUp, s.clock + AlignQuestions(s.state)))
            && (!s.powered ==> (y.powered <==> PowerReached(t, s.active, s.clock + AlignQuestions(s.state)))))
    }

    method HwEnergize(medium: Option<string>) returns (r: Outcome)
      modifies this`clock, this`state, this`active, this`sshUp, this`powered, this`strapped, this`log
      ensures cfg.faithful && old(Trust()) ==> GrewSafely(old(log), log)
      ensures GrewOrderly(cfg, old(log), log)
      ensures active == Target(medium, old(active)) || (r.Raised? && active == old(active))
      ensures r.Ok? && cfg.faithful && old(StrapsMatch()) ==> (StrapsMatch() <==> StrapsFollow(cfg, old(active), active))
      ensures OffOutcome(ToEnergized(medium), old(Now(true)), Now(r.Ok?))
      ensures r.Ok? && cfg.faithful && (old(powered) || Aligned(old(state), old(powered), old(clock)).PowerOff?) ==> powered
      ensures clock >= old(clock) && (old(Smooth()) ==> r.Ok? && Smooth())
      ensures r.Ok? && cfg.faithful && old(Trust()) ==>
                log == old(log) + EnergizeTrace(
                  cfg, Aligned(old(state), old(powered), old(clock)), Target(medium, old(active)), old(active))
      ensures state.Recovery? ==> old(state).Recovery?
    {
      hide PowerTakes, StrapsAt, PowerQuestion, EnergizesAt, Smooth, GrewOrderly, GrewSafely, Probes, Seen,
           EnergizeTrace, StrapsFollow, ColdLoaderAt, ColdOsAt, FinalizesAt;
      Unmoved(cfg, log, active);
      r := Align();
      if r.Raised? {
        return;
      }
      r := EnergizeFromHere(Target(medium, active));
    }

    /** The same, once the state is aligned. */
    method EnergizeFromHere(target: string) returns (r: Outcome)
      modifies this`clock, this`active, this`sshUp, this`powered, this`strapped, this`log
      ensures cfg.faithful && old(Trust()) ==> GrewSafely(old(log), log)
      ensures GrewOrderly(cfg, old(log), log)
      ensures active == target || (r.Raised? && active == old(active))
      ensures r.Ok? && cfg.faithful && old(StrapsMatch()) ==> (StrapsMatch() <==> StrapsFollow(cfg, old(active), active))
      ensures state.PowerOff? ==>
                && (r.Ok? <==> Completes(ToEnergized(Some(target)), old(active), old(sshUp), old(clock)))
                && (!old(powered) ==> (powered <==> PowerReached(ToEnergized(Some(target)), old(active), old(clock))))
      ensures r.Ok? && cfg.faithful && (old(powered) || state.PowerOff?) ==> powered
      ensures clock >= old(clock) && (old(Smooth()) ==> r.Ok? && Smooth())
      ensures r.Ok? && cfg.faithful && old(Trust()) ==> log == old(log) + EnergizeTrace(cfg, state, target, old(active))
    {
      hide RestrapFacts, StrapQuestions, PowerTakes, StrapsAt, PowerQuestion, EnergizesAt, Smooth, GrewOrderly;
      Unmoved(cfg, log, active);
      r := Ok;
      var cut := target != active || state.Recovery?;
      if !cut && !state.PowerOff? {
        return;
      }
      r := Restrap(target, cut);
      if r.Ok? {
        ghost var strapped := log;
        r := DoEnergize();
        OrderlyOn(cfg, old(log), strapped, log);
        Assoc(old(log), RestrapFacts(cfg, cut, target, old(active), false), [PowerApplied]);
      }
    }

    method HwBootToBootloader(medium: Option<string>) returns (r: Outcome)
      modifies this`clock, this`state, this`active, this`sshUp, this`powered, this`strapped, this`log
      ensures cfg.faithful && old(Trust()) ==> GrewSafely(old(log), log)
      ensures GrewOrderly(cfg, old(log), log)
      ensures active == Target(medium, old(active)) || (r.Raised? && active == old(active))
      ensures r.Ok? && cfg.faithful && old(StrapsMatch()) ==> (StrapsMatch() <==> StrapsFollow(cfg, old(active), active))
      ensures OffOutcome(ToBootloader(medium), old(Now(true)), Now(r.Ok?))
      ensures r.Ok? && cfg.faithful && (old(powered) || Aligned(old(state), old(powered), old(clock)).PowerOff?) ==> powered
      ensures AlignReturns(old(state), old(clock)) ==> state == Aligned(old(state), old(powered), old(clock))
      ensures AlignReturns(old(state), old(clock)) && Target(medium, old(active)) == old(active) ==>
                Routed(Aligned(old(state), old(powered), old(clock)), old(sshUp), old(active),
                       old(clock) + AlignQuestions(old(state)), old(log), clock, log, r.Ok?)
      ensures r.Ok? ==> LoaderSince(log, |old(log)|) || (state.Bootloader? && log == old(log))
      ensures clock >= old(clock) && (old(Smooth()) ==> r.Ok? && Smooth())
      ensures r.Ok? && cfg.faithful && old(Trust()) ==>
                log == old(log) + LoaderTrace(
                  cfg, Aligned(old(state), old(powered), old(clock)), Target(medium, old(active)), old(active))
      ensures state.Recovery? ==> old(state).Recovery?
    {
      hide ShellVerdict, LoaderVerdict, Synced, PowerTakes, ColdLoaderAt, StrapsAt, PowerQuestion, Smooth,
           GrewOrderly, GrewSafely, Routed, Probes, Seen, LoaderTrace, LoaderSince, StrapsFollow;
      Unmoved(cfg, log, active);
      r := Align();
      if r.Raised? {
        return;
      }
      r := LoaderFromHere(Target(medium, active));
    }

    /** The same, once the state is aligned. */
    method LoaderFromHere(target: string) returns (r: Outcome)
      modifies this`clock, this`active, this`sshUp, this`powered, this`strapped, this`log
      ensures cfg.faithful && old(Trust()) ==> GrewSafely(old(log), log)
      ensures GrewOrderly(cfg, old(log), log)
      ensures active == target || (r.Raised? && active == old(active))
      ensures r.Ok? && cfg.faithful && old(StrapsMatch()) ==> (StrapsMatch() <==> StrapsFollow(cfg, old(active), active))
      ensures state.PowerOff? ==>
                && (r.Ok? <==> Completes(ToBootloader(Some(target)), old(active), old(sshUp), old(clock)))
                && (!old(powered) ==> (powered <==> PowerReached(ToBootloader(Some(target)), old(active), old(clock))))
      ensures r.Ok? && cfg.faithful && (old(powered) || state.PowerOff?) ==> powered
      ensures target == old(active) ==> Routed(state, old(sshUp), old(active), old(clock), old(log), clock, log, r.Ok?)
      ensures r.Ok? ==> LoaderSince(log, |old(log)|) || (state.Bootloader? && log == old(log))
      ensures clock >= old(clock) && (old(Smooth()) ==> r.Ok? && Smooth())
      ensures r.Ok? && cfg.faithful ==> log == old(log) + LoaderTrace(cfg, state, target, old(active))
    {
      hide ShellVerdict, LoaderVerdict, Synced, ColdLoader, RestrapFacts, StrapQuestions, PowerTakes, ColdLoaderAt,
           StrapsAt, PowerQuestion, Smooth, GrewOrderly, RoutesAt, RebootFacts, SoftFacts, Routed;
      Unmoved(cfg, log, active);
      r := Ok;
      if target != active || state.Recovery? {
        r := Restrap(target, true);
        if r.Ok? {
          ghost var strapped := log;
          r := ColdBootToBootloader();
          OrderlyOn(cfg, old(log), strapped, log);
          Assoc(old(log), RestrapFacts(cfg, true, target, old(active), false), ColdLoader(cfg));
        }
        if state.Recovery? {
          FromRecovery(state, old(sshUp), old(active), old(clock), old(log), clock, log, r.Ok?);
        }
        return;
      }
      if state.Bootloader? {
        AlreadyThere(state, sshUp, active, clock, log);
        return;
      }
      r := RouteToBootloader();
    }

    lemma AlreadyThere(found: DutState, up: bool, medium: string, c: nat, log: seq<Fact>)
      requires found.Bootloader?
      ensures Routed(found, up, medium, c, log, c, log, true)
    {
    }

    lemma FromRecovery(found: DutState, up: bool, medium: string, c: nat, before: seq<Fact>, c': nat, after: seq<Fact>,
                       ok: bool)
      requires found.Recovery?
      ensures Routed(found, up, medium, c, before, c', after, ok)
    {
    }

    /** From a running or an unpowered board, on the medium it already has. */
    method RouteToBootloader() returns (r: Outcome)
      modifies this`clock, this`sshUp, this`powered, this`log
      ensures GrewSafely(old(log), log)
      ensures GrewOrderly(cfg, old(log), log)
      ensures r.Ok? ==> LoaderSince(log, |old(log)|)
      ensures clock >= old(clock) && (old(Smooth()) ==> r.Ok? && Smooth())
      ensures Routed(state, old(sshUp), active, old(clock), old(log), clock, log, r.Ok?)
      ensures r.Ok? && !state.Bootloader? && !state.Recovery? ==> log == old(log) + LoaderTrace(cfg, state, active, active)
      ensures state.PowerOff? ==>
                && (r.Ok? <==> ColdLoaderAt(old(sshUp), old(clock)))
                && powered == (old(powered) || PowerTakes(cfg, world(old(clock))))
      ensures r.Ok? && cfg.faithful && (old(powered) || state.PowerOff?) ==> powered
    {
      hide ShellVerdict, LoaderVerdict, Synced, PowerTakes, ColdLoaderAt, ColdLoader, LoaderAt, TrapAt, SoftAt,
           CutTaken, GrewSafely, GrewOrderly, Smooth;
      if state.OsUserland? {
        if cfg.autoboot {
          r := RebootDut();
        } else {
          r := SetTrapAndReboot();
        }
      } else if state.Energized? {
        if cfg.psu {
          r := DoPowerOff();
          if r.Ok? {
            ghost var cut := log;
            r := ColdBootToBootloader();
            Grown(cfg, old(log), cut, log);
          }
          return;
        }
        r := SoftReboot();
      } else {
        r := ColdBootToBootloader();
        return;
      }
      if r.Ok? {
        ghost var rebooted := log;
        r := WaitForBootloader();
        Grown(cfg, old(log), rebooted, log);
      }
    }

    method HwBootToOs(medium: Option<string>) returns (r: Outcome)
      modifies this`clock, this`state, this`active, this`sshUp, this`powered, this`strapped, this`log
      ensures cfg.faithful && old(Trust()) ==> GrewSafely(old(log), log)
      ensures GrewOrderly(cfg, old(log), log)
      ensures r.Ok? ==> sshUp && AliveSince(log, |old(log)|)
      ensures active == old(active) || active == Target(medium, old(active))
      ensures r.Ok? && cfg.faithful && old(StrapsMatch()) ==> (StrapsMatch() <==> StrapsFollow(cfg, old(active), active))
      ensures OffOutcome(ToOs(medium), old(Now(true)), Now(r.Ok?))
      ensures r.Ok? && cfg.faithful && (old(powered) || Aligned(old(state), old(powered), old(clock)).PowerOff?) ==> powered
      ensures old(state).PowerOff? && StrapQuestions(cfg, Target(medium, old(active)), old(active)) == 1 ==>
                old(log) + [Straps(old(powered))] <= log
      ensures clock >= old(clock) && (old(Smooth()) ==> r.Ok? && Smooth())
      ensures r.Ok? && cfg.faithful && old(Trust()) ==>
                var s, h := Aligned(old(state), old(powered), old(clock)), HeedAt(old(clock) + AlignQuestions(old(state)));
                (s.OsUserland? || s.Energized? ==> old(Smooth())) ==>
                  log == old(log) + OsTrace(cfg, s, Target(medium, old(active)), old(active), h)
      ensures r.Ok? && cfg.faithful && old(Trust()) ==>
                && old(log) <= log
                && OsRoute(cfg, Aligned(old(state), old(powered), old(clock)), Target(medium, old(active)), old(active),
                           HeedAt(old(clock) + AlignQuestions(old(state))), log[|old(log)|..])
      ensures AlignReturns(old(state), old(clock)) && Aligned(old(state), old(powered), old(clock)).Bootloader? ==>
                state.Bootloader?
      ensures AlignReturns(old(state), old(clock)) ==>
                Resumed(Aligned(old(state), old(powered), old(clock)), old(sshUp), old(clock) + AlignQuestions(old(state)),
                        old(log), clock, log, r.Ok?)
      ensures state.Recovery? ==> old(state).Recovery?
    {
      hide ShellVerdict, LoaderVerdict, Synced, OsTrace, OsRoute, AliveSince, StrapsFollow, StrapQuestions,
           PowerTakes, ColdOsAt, FinalizesAt, StrapsAt, PowerQuestion, Resumed, GrewOrderly, GrewSafely, Probes, Seen,
           HeedAt, ColdLoaderAt, ResumesAt;
      Unmoved(cfg, log, active);
      r := Align();
      if r.Raised? {
        return;
      }
      r := RouteToOs(Target(medium, active));
    }

    /** How a cold start without a power cut ends. */
    ghost predicate ColdStarted(target: string, medium: string, on: bool, up: bool, c: nat, r: Outcome)
      reads this
    {
      var p := PowerQuestion(false, target, medium, c);
      && (r.Ok? <==> StrapsAt(false, target, medium, c) && ColdOsAt(p) && FinalizesAt(up, p + ColdOsQuestions()))
      && powered == (on || (StrapsAt(false, target, medium, c) && PowerTakes(cfg, world(p))))
    }

    /** The chain resume, hot login, cold boot; each stage hands on to the next by changing `state`. */
    method RouteToOs(target: string) returns (r: Outcome)
      modifies this`clock, this`state, this`active, this`sshUp, this`powered, this`strapped, this`log
      ensures cfg.faithful && old(Trust()) ==> GrewSafely(old(log), log)
      ensures GrewOrderly(cfg, old(log), log)
      ensures r.Ok? ==> sshUp && AliveSince(log, |old(log)|)
      ensures active == old(active) || active == target
      ensures r.Ok? && cfg.faithful && old(StrapsMatch()) ==> (StrapsMatch() <==> StrapsFollow(cfg, old(active), active))
      ensures old(state).PowerOff? && StrapQuestions(cfg, target, old(active)) == 1 ==>
                old(log) + [Straps(old(powered))] <= log
      ensures state.PowerOff? <==> old(state).PowerOff?
      ensures state.PowerOff? ==>
                && (r.Ok? <==> Completes(ToOs(Some(target)), old(active), old(sshUp), old(clock)))
                && (!old(powered) ==> (powered <==> PowerReached(ToOs(Some(target)), old(active), old(clock))))
      ensures r.Ok? && cfg.faithful && (old(powered) || state.PowerOff?) ==> powered
      ensures clock >= old(clock) && (old(Smooth()) ==> r.Ok? && Smooth())
      ensures r.Ok? && cfg.faithful && old(Trust())
              && (old(state).OsUserland? || old(state).Energized? ==> old(Smooth())) ==>
                log == old(log) + OsTrace(cfg, old(state), target, old(active), HeedAt(old(clock)))
      ensures r.Ok? && cfg.faithful && old(Trust()) ==>
                old(log) <= log && OsRoute(cfg, old(state), target, old(active), HeedAt(old(clock)), log[|old(log)|..])
      ensures Resumed(old(state), old(sshUp), old(clock), old(log), clock, log, r.Ok?)
      ensures old(state).Bootloader? ==> state.Bootloader?
      ensures state.Recovery? ==> old(state).Recovery?
    {
      hide ShellVerdict, LoaderVerdict, Synced, PowerTakes, ColdOsAt, FinalizesAt, StrapsAt, PowerQuestion,
           ResumesAt, RestoreAt, LeaveLoader;
      if state.OsUserland? {
        r := ResumeRouteToOs(target);
        return;
      }
      if state.Energized? {
        r := LoginRouteToOs(target);
        return;
      }
      if state.Recovery? || state.Dirty? || state.PowerOff? {
        r := ColdStartOs(target);
        return;
      }
      if state.Bootloader? {
        r := LoaderRouteToOs();
        return;
      }
    }

    /** From BOOTLOADER. */
    method LoaderRouteToOs() returns (r: Outcome)
      requires state.Bootloader?
      modifies this`clock, this`sshUp, this`log
      ensures GrewSafely(old(log), log) && GrewOrderly(cfg, old(log), log)
      ensures r.Ok? ==> sshUp && AliveSince(log, |old(log)|)
      ensures clock >= old(clock) && (old(Smooth()) ==> r.Ok? && Smooth())
      ensures r.Ok? ==> log == old(log) + LeaveLoader(cfg, HeedAt(old(clock)))
      ensures Resumed(Bootloader, old(sshUp), old(clock), old(log), clock, log, r.Ok?)
    {
      hide ShellVerdict, ShellAt, FinalizesAt, RestoreAt, Smooth, GrewSafely, GrewOrderly;
      r := ResumeBootloaderToOs();
      if r.Ok? {
        r := FinalizeOsBoot();
      }
    }

    /** The chain from OS_USERLAND on. */
    method ResumeRouteToOs(target: string) returns (r: Outcome)
      requires state.OsUserland?
      modifies this`clock, this`state, this`active, this`sshUp, this`powered, this`strapped, this`log
      ensures cfg.faithful ==> GrewSafely(old(log), log)
      ensures GrewOrderly(cfg, old(log), log)
      ensures r.Ok? ==> sshUp && AliveSince(log, |old(log)|)
      ensures active == old(active) || active == target
      ensures r.Ok? && cfg.faithful && old(StrapsMatch()) ==> (StrapsMatch() <==> StrapsFollow(cfg, old(active), active))
      ensures clock >= old(clock) && (old(Smooth()) ==> r.Ok? && Smooth() && log == old(log) + [Heartbeat])
      ensures r.Ok? && cfg.faithful ==>
                old(log) <= log && OsRoute(cfg, OsUserland, target, old(active), HEEDED, log[|old(log)|..])
      ensures !state.PowerOff? && !state.Recovery? && (r.Ok? && cfg.faithful && old(powered) ==> powered)
    {
      var done: bool;
      r, done := ResumeOrReset();
      if r.Ok? && !done {
        r := LoginRouteToOs(target);
        if r.Ok? && cfg.faithful {
          BehindReset(old(log), ResetFacts(cfg), log);
        }
      }
    }

    /** The chain from ENERGIZED on. */
    method LoginRouteToOs(target: string) returns (r: Outcome)
      requires state.Energized?
      modifies this`clock, this`state, this`active, this`sshUp, this`powered, this`strapped, this`log
      ensures cfg.faithful ==> GrewSafely(old(log), log)
      ensures GrewOrderly(cfg, old(log), log)
      ensures r.Ok? ==> sshUp && AliveSince(log, |old(log)|)
      ensures active == old(active) || active == target
      ensures r.Ok? && cfg.faithful && old(StrapsMatch()) ==> (StrapsMatch() <==> StrapsFollow(cfg, old(active), active))
      ensures clock >= old(clock) && (old(Smooth()) ==> r.Ok? && Smooth() && log == old(log) + [ShellPrompt])
      ensures r.Ok? && cfg.faithful ==> old(log) <= log && LoginRoute(cfg, target, old(active), log[|old(log)|..])
      ensures !state.PowerOff? && !state.Recovery? && (r.Ok? && cfg.faithful && old(powered) ==> powered)
    {
      hide Smooth, RestrapFacts, ColdOs, StrapQuestions, CanStrap, Norm;
      var done: bool;
      r, done := LoginOrReset();
      if r.Raised? || done {
        return;
      }
      ghost var reset := log[|old(log)|..];
      ghost var cold := OsTrace(cfg, Dirty, target, old(active), HEEDED);
      r := ColdStartOs(target);
      Assoc(old(log), reset, cold);
    }

    method ColdStartOs(target: string) returns (r: Outcome)
      modifies this`clock, this`sshUp, this`powered, this`log, this`strapped, this`active
      ensures cfg.faithful && old(Trust()) ==> GrewSafely(old(log), log)
      ensures GrewOrderly(cfg, old(log), log)
      ensures r.Ok? ==> sshUp && AliveSince(log, |old(log)|) && active == target
      ensures active == old(active) || active == target
      ensures r.Ok? && cfg.faithful && old(StrapsMatch()) ==> (StrapsMatch() <==> StrapsFollow(cfg, old(active), active))
      ensures state.PowerOff? && StrapQuestions(cfg, target, old(active)) == 1 ==>
                old(log) + [Straps(old(powered))] <= log
      ensures state.PowerOff? ==> ColdStarted(target, old(active), old(powered), old(sshUp), old(clock), r)
      ensures r.Ok? && cfg.faithful ==> powered
      ensures clock >= old(clock) && (old(Smooth()) ==> r.Ok? && Smooth())
      ensures r.Ok? && cfg.faithful && old(Trust()) && !state.Energized? && !state.Bootloader? && !state.OsUserland? ==>
                log == old(log) + OsTrace(cfg, state, target, old(active), HEEDED)
    {
      hide ShellVerdict, LoaderVerdict, Synced, PowerTakes, ColdOsAt, FinalizesAt, StrapsAt, PowerQuestion,
           RestrapFacts, ColdOs, GrewOrderly, Smooth;
      r := Restrap(target, !state.PowerOff?);
      if r.Ok? {
        ghost var strapped := log;
        r := ColdBootToOs();
        OrderlyOn(cfg, old(log), strapped, log);
        Assoc(old(log), RestrapFacts(cfg, !state.PowerOff?, target, old(active), false), ColdOs(cfg));
      }
      if r.Ok? {
        r := FinalizeOsBoot();
      }
    }

    method ResumeOrReset() returns (r: Outcome, done: bool)
      requires state.OsUserland?
      modifies this`clock, this`sshUp, this`powered, this`log, this`state
      ensures GrewSafely(old(log), log)
      ensures GrewOrderly(cfg, old(log), log)
      ensures done ==> r.Raised? || (sshUp && AliveSince(log, |old(log)|))
      ensures r.Ok? && !done ==> state.Energized?
      ensures !(r.Ok? && !done) ==> state == old(state)
      ensures clock >= old(clock) && (old(Smooth()) ==> r.Ok? && done && Smooth())
      ensures done && r.Ok? ==> log == old(log) + [Heartbeat]
      ensures r.Ok? && cfg.faithful && old(powered) ==> powered
      ensures r.Ok? && !done ==> log == old(log) + ResetFacts(cfg)
    {
      r, done := TryResumeExistingOs();
      if r.Raised? {
        return;
      }
      if done {
        r := FinalizeOsBoot();
        return;
      }
      r := DoHardwareReset();
      if r.Ok? {
        state := Energized;
      }
    }

    method LoginOrReset() returns (r: Outcome, done: bool)
      requires state.Energized?
      modifies this`clock, this`sshUp, this`powered, this`log, this`state
      ensures GrewSafely(old(log), log)
      ensures GrewOrderly(cfg, old(log), log)
      ensures done ==> r.Ok? && sshUp && AliveSince(log, |old(log)|)
      ensures r.Ok? && !done ==> state.Dirty?
      ensures !(r.Ok? && !done) ==> state == old(state)
      ensures clock >= old(clock) && (old(Smooth()) ==> r.Ok? && done && Smooth())
      ensures done ==> log == old(log) + [ShellPrompt]
      ensures r.Ok? && cfg.faithful && old(powered) ==> powered
      ensures r.Ok? && !done ==>
                log == old(log) + ResetFacts(cfg) || log == (old(log) + [ShellPrompt]) + ResetFacts(cfg)
    {
      r, done := TryHotLogin();
      if r.Raised? || done {
        return;
      }
      r := DoHardwareReset();
      if r.Ok? {
        state := Dirty;
      }
    }

    method HwToRecovery() returns (r: Outcome)
      modifies this`clock, this`state, this`sshUp, this`powered, this`held, this`log
      ensures cfg.faithful && old(Trust()) ==> GrewSafely(old(log), log)
      ensures GrewOrderly(cfg, old(log), log)
      ensures clock >= old(clock) && (old(Smooth()) ==> r.Ok? && Smooth())
      ensures held == HeldAfterRecovery(old(state), old(powered), old(held), old(clock))
      ensures r.Ok? && HasRecoveryPin(cfg) && !old(state).Recovery? ==> !held
      ensures AlignsOff(old(state), old(powered), old(clock)) ==>
                var q := old(clock) + AlignQuestions(old(state)); clock == q + RecoveryQuestions(q)
      ensures state.Recovery? ==> old(state).Recovery?
      ensures old(state).Recovery? ==> held == old(held)
      ensures r.Ok? && cfg.faithful && old(Trust()) ==>
                log == old(log) + Trace(cfg, ToRecovery, Aligned(old(state), old(powered), old(clock)), active, HEEDED)
      ensures OffOutcome(ToRecovery, old(Now(true)), Now(r.Ok?))
      ensures r.Ok? && cfg.faithful && (old(powered) || Aligned(old(state), old(powered), old(clock)).PowerOff?) ==> powered
    {
      hide PowerTakes, EnergizesAt, HeldFrom, RecoveryQuestions, RecoveryHeld, Smooth, CutTaken, Probes, Seen,
           StrapsAt, PowerQuestion, ColdLoaderAt, ColdOsAt, FinalizesAt, Trace, GrewOrderly, GrewSafely;
      Unmoved(cfg, log, active);
      r := Align();
      if r.Raised? {
        return;
      }
      r := RecoveryFromHere();
    }

    /** Whether the recovery pin is set afterwards, from the aligned state `s`. */
    predicate HeldFromHere(s: DutState, before: bool, c: nat) {
      if !HasRecoveryPin(cfg) || s.Recovery? then before
      else if s.PowerOff? then HeldFrom(before, c)
      else if CutTaken(cfg, world(c)) then HeldFrom(before, c + 1)
      else before
    }

    /** The same, once the state is aligned. */
    method RecoveryFromHere() returns (r: Outcome)
      modifies this`clock, this`sshUp, this`powered, this`held, this`log
      ensures GrewSafely(old(log), log) && GrewOrderly(cfg, old(log), log)
      ensures clock >= old(clock) && (old(Smooth()) ==> r.Ok? && Smooth())
      ensures held == HeldFromHere(state, old(held), old(clock))
      ensures r.Ok? && HasRecoveryPin(cfg) && !state.Recovery? ==> !held
      ensures state.PowerOff? ==>
                && clock == old(clock) + RecoveryQuestions(old(clock))
                && (r.Ok? <==> Completes(ToRecovery, active, old(sshUp), old(clock)))
                && (!old(powered) ==> (powered <==> PowerReached(ToRecovery, active, old(clock))))
      ensures r.Ok? && cfg.faithful && (old(powered) || state.PowerOff?) ==> powered
      ensures r.Ok? && cfg.faithful && old(Trust()) ==> log == old(log) + Trace(cfg, ToRecovery, state, active, HEEDED)
    {
      hide PowerTakes, EnergizesAt, HeldFrom, RecoveryQuestions, Smooth, CutTaken, GrewOrderly, GrewSafely, StrapsAt,
           PowerQuestion, ColdLoaderAt, ColdOsAt, FinalizesAt;
      Unmoved(cfg, log, active);
      r := Ok;
      if state.Recovery? {
        return;
      }
      if !state.PowerOff? {
        r := DoPowerOff();
        if r.Raised? {
          return;
        }
      }
      ghost var cut := log;
      r := TriggerRecovery();
      Grown(cfg, old(log), cut, log);
    }

    /** Power comes on while the recovery strap is held; a pin is cleared afterwards, a button let go by hand. */
    method TriggerRecovery() returns (r: Outcome)
      modifies this`clock, this`powered, this`held, this`log
      ensures GrewSafely(old(log), log)
      ensures GrewOrderly(cfg, old(log), log)
      ensures clock >= old(clock) && (old(Smooth()) ==> r.Ok? && Smooth())
      ensures r.Ok? ==>
                log == old(log) + [RecoverySet(old(powered)), PowerApplied]
                       + if HasRecoveryPin(cfg) then [RecoveryCleared(powered)] else []
      ensures r.Ok? && cfg.faithful ==> powered
      ensures powered == (old(powered) || (RecoveryHeld(cfg, world(old(clock))) && PowerTakes(cfg, world(old(clock) + 1))))
      ensures r.Ok? <==>
                && RecoveryHeld(cfg, world(old(clock))) && EnergizesAt(old(clock) + 1)
                && (HasRecoveryPin(cfg) ==> world(old(clock) + 3).kind.Good?)
      ensures held == if HasRecoveryPin(cfg) then HeldFrom(old(held), old(clock)) else old(held)
      ensures r.Ok? && HasRecoveryPin(cfg) ==> !held
      ensures clock == old(clock) + RecoveryQuestions(old(clock))
    {
      hide Obliging, PowerTakes, EnergizesAt, EnergizeQuestions;
      if HasRecoveryPin(cfg) {
        r := SetRecoveryPin();
        if r.Ok? {
          r := DoEnergize();
        }
        if r.Ok? {
          r := ClearRecoveryPin();
        }
        return;
      }
      if cfg.headless {
        return Raised(false);
      }
      var a := Ask();
      log := log + [RecoverySet(powered)];
      r := DoEnergize();
    }

    method SetRecoveryPin() returns (r: Outcome)
      modifies this`clock, this`held, this`log
      ensures clock == old(clock) + 1 && log == old(log) + [RecoverySet(powered)]
      ensures r.Ok? <==> world(old(clock)).kind.Good?
      ensures held == (old(held) || world(old(clock)).kind.Good? || world(old(clock)).yes)
      ensures old(Smooth()) ==> r.Ok? && Smooth()
    {
      var a := Ask();
      log := log + [RecoverySet(powered)];
      held := held || a.kind.Good? || a.yes;
      r := if a.kind.Good? then Ok else Failure(a);
    }

    method ClearRecoveryPin() returns (r: Outcome)
      modifies this`clock, this`held, this`log
      ensures clock == old(clock) + 1 && log == old(log) + [RecoveryCleared(powered)]
      ensures r.Ok? <==> world(old(clock)).kind.Good?
      ensures held == (old(held) && !(world(old(clock)).kind.Good? || world(old(clock)).yes))
      ensures old(Smooth()) ==> r.Ok? && Smooth()
    {
      var a := Ask();
      log := log + [RecoveryCleared(powered)];
      held := held && !(a.kind.Good? || a.yes);
      r := if a.kind.Good? then Ok else Failure(a);
    }

    // -------------------------------------------------------------- triggers and runs

    predicate Live(t: Trigger, s: Snap) {
      LeavesLive(t, s.state, s.powered, s.active, s.sshUp, s.clock)
    }

    /**
     What a trigger does to the power and to what is recorded of it. POWER_OFF is right afterwards exactly if the trigger
     did not leave the board live; from a board found off it returns exactly if every stage does; power is on after
     every trigger to a running state unless an unpowered board was taken for a running one.
     */
    predicate PowerOutcome(t: Trigger, s: Snap, x: Snap) {
      var off, found := AlignsOff(s.state, s.powered, s.clock), Aligned(s.state, s.powered, s.clock);
      && (x.ok ==> x.state == Destination(t)) && (t.MarkDirty? ==> x.ok)
      && (cfg.faithful && Right(s) ==> (Right(x) <==> !Live(t, s)) && (x.ok ==> Right(x)))
      && (off && !t.MarkDirty? ==> (x.ok <==> Completes(t, s.active, s.sshUp, s.clock + AlignQuestions(s.state))))
      && (off && t.ToPowerOff? ==> x.powered == s.powered && x.clock == s.clock + AlignQuestions(s.state))
      && (x.ok && cfg.faithful && t.ToPowerOff? && Right(s) ==> !x.powered)
      && (x.ok && cfg.faithful && !t.ToPowerOff? && !t.MarkDirty? && (s.powered || found.PowerOff?) ==> x.powered)
    }

    /** What it does to the medium and the boot straps: they match exactly if they can follow. */
    predicate StrapOutcome(t: Trigger, s: Snap, x: Snap) {
      && (x.active == s.active || x.active == Wanted(t, s.active))
      && (x.ok && (t.ToEnergized? || t.ToBootloader?) ==> x.active == Wanted(t, s.active))
      && (x.ok && cfg.faithful && Match(s) ==> (Match(x) <==> StrapsFollow(cfg, s.active, x.active)))
    }

    /** What it does to the recovery pin: a board recorded as in RECOVERY is never held there by it. */
    predicate PinOutcome(t: Trigger, s: Snap, x: Snap) {
      && x.held == HeldAfter(t, s.state, s.powered, s.held, s.clock)
      && (HasRecoveryPin(cfg) && (s.state.Recovery? ==> !s.held) && x.state.Recovery? ==> !x.held)
      && (t.ToRecovery? && AlignsOff(s.state, s.powered, s.clock) ==>
            var q := s.clock + AlignQuestions(s.state); x.clock == q + RecoveryQuestions(q))
    }

    /**
     What it leaves in the history: no boot strap moved live if POWER_OFF was right; the specified trace, whose replay
     agrees with the power; a fresh sign of life from Linux or from the boot loader.
     */
    predicate TraceOutcome(t: Trigger, s: Snap, x: Snap, smooth: bool, before: seq<Fact>, after: seq<Fact>) {
      var found := Aligned(s.state, s.powered, s.clock);
      var trace := Trace(cfg, t, found, s.active, HeedAt(s.clock + AlignQuestions(s.state)));
      && (t.MarkDirty? ==> after == before)
      && (cfg.faithful && Right(s) ==> GrewSafely(before, after))
      && (x.ok && cfg.faithful && Right(s) && (t.ToOs? && (found.OsUserland? || found.Energized?) ==> smooth) ==>
            after == before + trace)
      && (x.ok && cfg.faithful && !t.MarkDirty? && (s.powered <==> !found.PowerOff?) ==>
            x.powered == PowerAfter(s.powered, trace))
      && (x.ok && t.ToOs? ==> x.sshUp && AliveSince(after, |before|))
      && (x.ok && t.ToBootloader? ==> LoaderSince(after, |before|) || after == before)
      && (s.state.PowerOff? && t.ToOs? && StrapQuestions(cfg, Wanted(t, s.active), s.active) == 1 ==>
            before + [Straps(s.powered)] <= after)
    }

    /**
     What it types: every command in its place; from BOOTLOADER to Linux and to BOOTLOADER from elsewhere, exactly whether
     it returns, and what was typed on the way.
     */
    predicate CommandOutcome(t: Trigger, s: Snap, x: Snap, before: seq<Fact>, after: seq<Fact>) {
      var found, q := Aligned(s.state, s.powered, s.clock), s.clock + AlignQuestions(s.state);
      var aligned := AlignReturns(s.state, s.clock);
      && GrewOrderly(cfg, before, after)
      && (aligned && !x.ok && (t.ToBootloader? || (t.ToOs? && found.Bootloader?)) ==> x.state == found)
      && (t.ToOs? && aligned ==> Resumed(found, s.sshUp, q, before, x.clock, after, x.ok))
      && (t.ToBootloader? && aligned && Wanted(t, s.active) == s.active ==>
            Routed(found, s.sshUp, s.active, q, before, x.clock, after, x.ok))
    }

    predicate Fired(t: Trigger, s: Snap, x: Snap, smooth: bool, before: seq<Fact>, after: seq<Fact>) {
      && PowerOutcome(t, s, x) && StrapOutcome(t, s, x) && PinOutcome(t, s, x)
      && TraceOutcome(t, s, x, smooth, before, after) && CommandOutcome(t, s, x, before, after)
    }

    /** A trigger runs its transition; only a normal return moves on to the destination. */
    method Fire(t: Trigger) returns (r: Outcome)
      modifies this
      ensures trail == old(trail) + [Now(r.Ok?)]
      ensures Fired(t, old(Now(true)), Now(r.Ok?), old(Smooth()), old(log), log)
      ensures clock >= old(clock) && (old(Smooth()) ==> r.Ok? && Smooth())
    {
      hide Fired, Smooth;
      match t {
        case ToPowerOff => r := FirePowerOff();
        case ToEnergized(m) => r := FireEnergize(m);
        case ToBootloader(m) => r := FireBootloader(m);
        case ToOs(m) => r := FireOs(m);
        case ToRecovery => r := FireRecovery();
        case MarkDirty => r := FireMarkDirty();
      }
      trail := trail + [Now(r.Ok?)];
    }

    // Each trigger by itself.

    method FirePowerOff() returns (r: Outcome)
      modifies this
      ensures Fired(ToPowerOff, old(Now(true)), Now(r.Ok?), old(Smooth()), old(log), log) && trail == old(trail)
      ensures clock >= old(clock) && (old(Smooth()) ==> r.Ok? && Smooth())
    {
      hide Completes, PowerReached, PowerAfter, Smooth, GrewSafely, GrewOrderly, Resumed, Routed, StrapsFollow,
           LoaderTrace, OsTrace, EnergizeTrace, RecoveryTrace, HeedAt, AlignReturns,
           LoaderSince, AliveSince;
      FoundOffIsOff(state, powered, clock);
      Unmoved(cfg, log, active);
      NothingToReach(ToPowerOff, active, sshUp, clock + AlignQuestions(state));
      Replayed(ToPowerOff, Now(true), HeedAt(clock + AlignQuestions(state)));
      r := HwPowerOff();
      if r.Ok? {
        state := PowerOff;
      }
    }

    method FireEnergize(medium: Option<string>) returns (r: Outcome)
      modifies this
      ensures Fired(ToEnergized(medium), old(Now(true)), Now(r.Ok?), old(Smooth()), old(log), log) && trail == old(trail)
      ensures clock >= old(clock) && (old(Smooth()) ==> r.Ok? && Smooth())
    {
      hide Completes, PowerReached, PowerAfter, Smooth, GrewSafely, GrewOrderly, Resumed, Routed, StrapsFollow,
           EnergizeTrace, Target, AlignQuestions, LoaderTrace, OsTrace, RecoveryTrace, HeedAt, AlignReturns, Probes,
           Seen, ProbeDue, LoaderSince, AliveSince, PowerOutcome, OffOutcome;
      ghost var s := Now(true);
      Replayed(ToEnergized(medium), Now(true), HeedAt(clock + AlignQuestions(state)));
      r := HwEnergize(medium);
      PowerFollows(ToEnergized(medium), s, Now(r.Ok?));
      if r.Ok? {
        state := Energized;
      }
    }

    method FireBootloader(medium: Option<string>) returns (r: Outcome)
      modifies this
      ensures Fired(ToBootloader(medium), old(Now(true)), Now(r.Ok?), old(Smooth()), old(log), log) && trail == old(trail)
      ensures clock >= old(clock) && (old(Smooth()) ==> r.Ok? && Smooth())
    {
      hide Completes, PowerReached, PowerAfter, Smooth, GrewSafely, GrewOrderly, Resumed, Routed, StrapsFollow,
           LoaderTrace, LoaderSince, Target, AlignQuestions, EnergizeTrace, OsTrace, RecoveryTrace, HeedAt,
           AlignReturns, Probes, Seen, ProbeDue, AliveSince, PowerOutcome, OffOutcome;
      ghost var s := Now(true);
      Replayed(ToBootloader(medium), Now(true), HeedAt(clock + AlignQuestions(state)));
      r := HwBootToBootloader(medium);
      PowerFollows(ToBootloader(medium), s, Now(r.Ok?));
      if r.Ok? {
        state := Bootloader;
      }
    }

    method FireOs(medium: Option<string>) returns (r: Outcome)
      modifies this
      ensures Fired(ToOs(medium), old(Now(true)), Now(r.Ok?), old(Smooth()), old(log), log) && trail == old(trail)
      ensures clock >= old(clock) && (old(Smooth()) ==> r.Ok? && Smooth())
    {
      hide Completes, PowerReached, PowerAfter, Smooth, GrewSafely, GrewOrderly, Resumed, Routed, StrapsFollow,
           OsTrace, AliveSince, StrapQuestions, OsRoute, Target, AlignQuestions, EnergizeTrace, LoaderTrace,
           RecoveryTrace, HeedAt, AlignReturns, Probes, Seen, ProbeDue, LoaderSince, PowerOutcome, OffOutcome,
           Norm, CanStrap, HeldAfterRecovery, RecoveryQuestions;
      ghost var s := Now(true);
      Replayed(ToOs(medium), Now(true), HeedAt(clock + AlignQuestions(state)));
      r := HwBootToOs(medium);
      PowerFollows(ToOs(medium), s, Now(r.Ok?));
      if r.Ok? {
        state := OsUserland;
      }
    }

    method FireRecovery() returns (r: Outcome)
      modifies this
      ensures Fired(ToRecovery, old(Now(true)), Now(r.Ok?), old(Smooth()), old(log), log) && trail == old(trail)
      ensures clock >= old(clock) && (old(Smooth()) ==> r.Ok? && Smooth())
    {
      hide Completes, PowerReached, PowerAfter, Smooth, GrewSafely, GrewOrderly, Resumed, Routed, StrapsFollow,
           RecoveryTrace, RecoveryQuestions, HeldAfterRecovery, AlignQuestions, LoaderTrace, OsTrace, EnergizeTrace,
           HeedAt, AlignReturns, Probes, Seen, ProbeDue, LoaderSince, AliveSince, PowerOutcome, OffOutcome;
      ghost var s := Now(true);
      Unmoved(cfg, log, active);
      Replayed(ToRecovery, Now(true), HeedAt(clock + AlignQuestions(state)));
      r := HwToRecovery();
      PowerFollows(ToRecovery, s, Now(r.Ok?));
      if r.Ok? {
        state := Recovery;
      }
    }

    method FireMarkDirty() returns (r: Outcome)
      modifies this`state
      ensures Fired(MarkDirty, old(Now(true)), Now(r.Ok?), old(Smooth()), old(log), log)
      ensures clock >= old(clock) && (old(Smooth()) ==> r.Ok? && Smooth())
    {
      Unmoved(cfg, log, active);
      NothingToReach(MarkDirty, active, sshUp, clock + AlignQuestions(state));
      state := Dirty;
      r := Ok;
    }

    /** The outcome for the power, from what the transition did. */
    lemma PowerFollows(t: Trigger, s: Snap, y: Snap)
      requires !t.ToPowerOff? && !t.MarkDirty? && OffOutcome(t, s, y)
      requires y.ok && cfg.faithful && (s.powered || Aligned(s.state, s.powered, s.clock).PowerOff?) ==> y.powered
      ensures PowerOutcome(t, s, if y.ok then y.(state := Destination(t)) else y)
    {
      hide Completes, PowerReached;
      FoundOffIsOff(s.state, s.powered, s.clock);
    }

    /** Replaying the trace of a trigger that found the power as it is. */
    lemma Replayed(t: Trigger, s: Snap, h: Heed)
      ensures var found := Aligned(s.state, s.powered, s.clock);
              (s.powered <==> !found.PowerOff?) && !t.MarkDirty? ==>
                PowerAfter(s.powered, Trace(cfg, t, found, s.active, h)) == !t.ToPowerOff?
    {
      var found := Aligned(s.state, s.powered, s.clock);
      if s.powered <==> !found.PowerOff? {
        TraceIsPhysical(cfg, t, found, s.active, h, s.powered);
      }
    }

    /** A faithful probe finds only unpowered boards off. */
    lemma FoundOffIsOff(s: DutState, on: bool, c: nat)
      ensures cfg.faithful && (s.PowerOff? ==> !on) && AlignsOff(s, on, c) ==> !on
    {
    }

    /** `power_off` finds an unpowered board done, and `mark_dirty` any board. */
    lemma NothingToReach(t: Trigger, medium: string, up: bool, c: nat)
      ensures t.ToPowerOff? || t.MarkDirty? ==> !PowerReached(t, medium, c) && Completes(t, medium, up, c)
    {
    }

    /** None of the triggers fired so far left a powered board recorded as POWER_OFF. */
    predicate NoneLive(script: seq<Trigger>, start: Snap, tr: seq<Snap>)
      requires |tr| <= |script|
    {
      forall i :: 0 <= i < |tr| ==> !Live(script[i], Before(start, tr, i))
    }

    /** The straps could follow every change of the recorded medium. */
    predicate AllFollow(start: Snap, tr: seq<Snap>) {
      forall i :: 0 <= i < |tr| ==> StrapsFollow(cfg, Before(start, tr, i).active, tr[i].active)
    }

    /** The recovery pin is where the triggers and the answers to them put it. */
    predicate PinTracked(script: seq<Trigger>, start: Snap, tr: seq<Snap>)
      requires |tr| <= |script|
    {
      forall i :: 0 <= i < |tr| ==>
        var s := Before(start, tr, i);
        tr[i].held == HeldAfter(script[i], s.state, s.powered, s.held, s.clock)
    }

    /** POWER_OFF is right after every trigger exactly when none left the board live. */
    predicate PowerRun(script: seq<Trigger>, start: Snap, tr: seq<Snap>)
      requires |tr| <= |script|
    {
      cfg.faithful && Right(start) ==> (AllRight(tr) <==> NoneLive(script, start, tr))
    }

    /** If none raised, the straps match after every trigger exactly when they could follow every change. */
    predicate StrapRun(start: Snap, tr: seq<Snap>) {
      cfg.faithful && Match(start) && AllOk(tr) ==> (AllMatch(tr) <==> AllFollow(start, tr))
    }

    lemma PowerSnoc(script: seq<Trigger>, start: Snap, tr: seq<Snap>, x: Snap)
      requires |tr| < |script| && PowerRun(script, start, tr)
      requires var s := Before(start, tr, |tr|); cfg.faithful && Right(s) ==> (Right(x) <==> !Live(script[|tr|], s))
      ensures PowerRun(script, start, tr + [x])
      ensures NoneLive(script, start, tr + [x]) ==> NoneLive(script, start, tr)
      ensures cfg.faithful && Right(start) && NoneLive(script, start, tr) ==> Right(Before(start, tr, |tr|))
    {
      hide Live;
      BeforeSnoc(start, tr, x);
      SnapSnoc(tr, x);
    }

    lemma NoTriggersYet(script: seq<Trigger>, start: Snap)
      ensures PowerRun(script, start, []) && StrapRun(start, []) && AllFollow(start, []) && PinTracked(script, start, [])
      ensures AllOk([])
    {
    }

    lemma FollowSnoc(start: Snap, tr: seq<Snap>, x: Snap)
      ensures AllFollow(start, tr + [x]) <==>
              AllFollow(start, tr) && StrapsFollow(cfg, Before(start, tr, |tr|).active, x.active)
    {
      hide StrapsFollow;
      BeforeSnoc(start, tr, x);
      assert forall i :: 0 <= i < |tr| ==> (tr + [x])[i] == tr[i];
    }

    lemma StrapSnoc(start: Snap, tr: seq<Snap>, x: Snap)
      requires StrapRun(start, tr)
      requires var s := Before(start, tr, |tr|);
               x.ok && cfg.faithful && Match(s) ==> (Match(x) <==> StrapsFollow(cfg, s.active, x.active))
      ensures StrapRun(start, tr + [x])
    {
      hide StrapsFollow, Match, AllMatch, AllFollow, AllOk;
      FollowSnoc(start, tr, x);
      SnapSnoc(tr, x);
      LastMatches(start, tr);
    }

    lemma PinSnoc(script: seq<Trigger>, start: Snap, tr: seq<Snap>, x: Snap)
      requires |tr| < |script|
      ensures var s := Before(start, tr, |tr|);
              PinTracked(script, start, tr + [x]) <==>
              PinTracked(script, start, tr) && x.held == HeldAfter(script[|tr|], s.state, s.powered, s.held, s.clock)
    {
      hide HeldAfter;
      BeforeSnoc(start, tr, x);
      assert forall i :: 0 <= i < |tr| ==> (tr + [x])[i] == tr[i];
    }

    /**
     Any series of triggers, whatever is raised; `start` is where it begins and `tr` what each trigger left behind.
     POWER_OFF is right after every trigger exactly when no trigger leaves the board live, and then no boot strap moves
     on a powered board. If none raises, the straps match after every trigger exactly when they can follow every change
     of medium. The recovery pin moves with `boot_to_recovery` alone.
     */
    method Run(script: seq<Trigger>) returns (clean: bool, ghost start: Snap, ghost tr: seq<Snap>)
      modifies this
      ensures start == old(Now(true)) && trail == old(trail) + tr && |tr| == |script|
      ensures Before(start, tr, |tr|) == Now(Before(start, tr, |tr|).ok)
      ensures clean <==> AllOk(tr)
      ensures PowerRun(script, start, tr)
      ensures cfg.faithful && Right(start) && NoneLive(script, start, tr) ==> GrewSafely(old(log), log)
      ensures GrewOrderly(cfg, old(log), log)
      ensures StrapRun(start, tr)
      ensures clean && (forall i :: 0 <= i < |script| ==> Strappable(cfg, script[i])) ==> AllFollow(start, tr)
      ensures PinTracked(script, start, tr)
      ensures old(Smooth()) ==> clean
      ensures clean && script != [] ==> state == Destination(script[|script| - 1])
    {
      hide Live, HeldAfter, StrapsFollow, Strappable, Right, Match, GrewSafely, GrewOrderly, Smooth, AllOk, NoneLive,
           AllFollow, PinTracked, PowerRun, StrapRun;
      clean, start, tr := true, Now(true), [];
      NoTriggersYet(script, start);
      Unmoved(cfg, log, active);
      for i := 0 to |script|
        invariant trail == old(trail) + tr && |tr| == i
        invariant Before(start, tr, i) == Now(Before(start, tr, i).ok)
        invariant clean <==> AllOk(tr)
        invariant PowerRun(script, start, tr) && StrapRun(start, tr)
        invariant cfg.faithful && Right(start) && NoneLive(script, start, tr) ==> GrewSafely(old(log), log)
        invariant GrewOrderly(cfg, old(log), log)
        invariant clean && (forall k :: 0 <= k < |script| ==> Strappable(cfg, script[k])) ==> AllFollow(start, tr)
        invariant PinTracked(script, start, tr)
        invariant old(Smooth()) ==> clean && Smooth()
        invariant clean && i > 0 ==> state == Destination(script[i - 1])
      {
        ghost var x, before: seq<Fact> := *, log;
        var ok;
        ok, x := Step(script[i], Before(start, tr, i));
        clean := clean && ok;
        SnapSnoc(tr, x);
        PowerSnoc(script, start, tr, x);
        StrapSnoc(start, tr, x);
        FollowSnoc(start, tr, x);
        PinSnoc(script, start, tr, x);
        if cfg.faithful && Right(start) && NoneLive(script, start, tr) {
          GrewOn(old(log), before, log);
        }
        OrderlyOn(cfg, old(log), before, log);
        Assoc(old(trail), tr, [x]);
        tr := tr + [x];
      }
    }

    /** One trigger, from snapshot to snapshot. */
    method Step(t: Trigger, ghost s: Snap) returns (ok: bool, ghost x: Snap)
      requires s == Now(s.ok)
      modifies this
      ensures x == Now(ok) && trail == old(trail) + [x]
      ensures cfg.faithful && Right(s) ==> (Right(x) <==> !Live(t, s)) && GrewSafely(old(log), log)
      ensures GrewOrderly(cfg, old(log), log)
      ensures ok && cfg.faithful && Match(s) ==> (Match(x) <==> StrapsFollow(cfg, s.active, x.active))
      ensures ok && Strappable(cfg, t) ==> StrapsFollow(cfg, s.active, x.active)
      ensures x.held == HeldAfter(t, s.state, s.powered, s.held, s.clock)
      ensures old(Smooth()) ==> ok && Smooth()
      ensures ok ==> state == Destination(t)
    {
      hide LeavesLive, HeldAfter, StrapsFollow, Strappable, GrewSafely, GrewOrderly, Smooth, Aligned, AlignsOff,
           Completes, Trace, PowerAfter, RecoveryQuestions;
      var r := Fire(t);
      ok, x := r.Ok?, Now(r.Ok?);
      if ok && Strappable(cfg, t) {
        FollowsIfStrappable(t, s.active, x.active);
      }
    }

    lemma FollowsIfStrappable(t: Trigger, before: string, after: string)
      requires Strappable(cfg, t) && (after == before || after == Wanted(t, before))
      ensures StrapsFollow(cfg, before, after)
    {
    }

    /** With `mark_dirty` after every trigger that raises, POWER_OFF can be trusted and no boot strap moves live. */
    method RunTidily(script: seq<Trigger>) returns (clean: bool)
      modifies this
      ensures cfg.faithful && old(Trust()) ==> Trust() && GrewSafely(old(log), log)
      ensures GrewOrderly(cfg, old(log), log)
      ensures old(Smooth()) ==> clean
    {
      clean := true;
      for i := 0 to |script|
        invariant cfg.faithful && old(Trust()) ==> Trust() && GrewSafely(old(log), log)
        invariant GrewOrderly(cfg, old(log), log)
        invariant old(Smooth()) ==> clean && Smooth()
      {
        hide LeavesLive, HeldAfter, StrapsFollow, Smooth, GrewSafely, GrewOrderly, Aligned, AlignsOff, Completes,
             Trace, PowerAfter, RecoveryQuestions;
        ghost var before := log;
        var r := Fire(script[i]);
        if r.Raised? {
          clean := false;
          r := Fire(MarkDirty);
        }
        OrderlyOn(cfg, old(log), before, log);
        if cfg.faithful && old(Trust()) {
          GrewOn(old(log), before, log);
        }
      }
    }
  }

  /** Where the machine and the board stand, and whether the trigger that led there returned. */
  datatype Snap = Snap(
    ok: bool, state: DutState, powered: bool, active: string, sshUp: bool, clock: nat, strapped: string, held: bool)

  /** Where trigger number `i` found things. */
  function Before(start: Snap, tr: seq<Snap>, i: nat): Snap
    requires i <= |tr|
  {
    if i == 0 then start else tr[i - 1]
  }

  lemma BeforeSnoc(start: Snap, tr: seq<Snap>, x: Snap)
    ensures forall i :: 0 <= i <= |tr| ==> Before(start, tr + [x], i) == Before(start, tr, i)
  {
  }

  /** POWER_OFF is not recorded for a powered board. */
  predicate Right(s: Snap) {
    s.state.PowerOff? ==> !s.powered
  }

  /** The boot straps stand where the recorded medium says. */
  predicate Match(s: Snap) {
    s.strapped == Norm(s.active)
  }

  predicate AllRight(tr: seq<Snap>) {
    forall i :: 0 <= i < |tr| ==> Right(tr[i])
  }

  predicate AllMatch(tr: seq<Snap>) {
    forall i :: 0 <= i < |tr| ==> Match(tr[i])
  }

  predicate AllOk(tr: seq<Snap>) {
    forall i :: 0 <= i < |tr| ==> tr[i].ok
  }

  lemma LastMatches(start: Snap, tr: seq<Snap>)
    ensures Match(start) && AllMatch(tr) ==> Match(Before(start, tr, |tr|))
  {
  }

  lemma SnapSnoc(tr: seq<Snap>, x: Snap)
    ensures AllRight(tr + [x]) <==> AllRight(tr) && Right(x)
    ensures AllMatch(tr + [x]) <==> AllMatch(tr) && Match(x)
    ensures AllOk(tr + [x]) <==> AllOk(tr) && x.ok
  {
    assert forall i :: 0 <= i < |tr| ==> (tr + [x])[i] == tr[i];
    assert (tr + [x])[|tr|] == x;
  }

  const STATION := BootWatch.Console(["Kernel panic"], "root@", "login:", None, "=>", "stop autoboot")

  const PINNED := Config(true, true, true, true, true, true, {"sd"}, STATION, true)

  /** The probe sees an unpowered board, the serial port is lost just after power came on, all other answers are good. */
  function PortLostOnce(k: nat): Answer {
    Answer(if k == 2 then Lost else Good, false, PowerOff, [], None)
  }

  method PowerOffFirst(world: nat -> Answer) returns (m: StateMachine, r: Outcome)
    requires world(0) == Answer(Good, false, PowerOff, [], None)
    ensures fresh(m) && m.cfg == PINNED && m.world == world
    ensures r.Ok? && m.state.PowerOff? && !m.powered && !m.held && m.clock == 1 && m.active == DEFAULT
  {
    hide Trace, PowerAfter, GrewSafely, StrapsFollow, StateMachine.Smooth, AliveSince, LoaderSince;
    m := new StateMachine(PINNED, world, false);
    r := m.Fire(ToPowerOff);
  }

  /** After `power_off` and an `energize` that loses the serial port, POWER_OFF is recorded for a powered board. */
  method RaisedEnergizeMisleads() returns (m: StateMachine, first: Outcome, second: Outcome)
    ensures fresh(m) && m.cfg == PINNED && m.active == DEFAULT
    ensures first.Ok? && second.Raised? && m.state.PowerOff? && m.powered
  {
    m, first := PowerOffFirst(PortLostOnce);
    second := m.Fire(ToEnergized(None));
  }

  /** The probe sees an unpowered board; the serial port is lost when power comes on for the first time. */
  function PortLostInRecovery(k: nat): Answer {
    Answer(if k == 3 then Lost else Good, false, PowerOff, [], None)
  }

  /** `power_off`, and a `boot_to_recovery` that loses the serial port. */
  method RaisedRecovery() returns (m: StateMachine, first: Outcome, second: Outcome)
    ensures fresh(m) && m.cfg == PINNED && m.world == PortLostInRecovery
    ensures first.Ok? && second.Raised? && m.state.PowerOff? && m.powered && m.held && m.clock == 4 && m.active == DEFAULT
  {
    hide Trace, PowerAfter, GrewSafely, StrapsFollow, StateMachine.Smooth, AliveSince, LoaderSince;
    m, first := PowerOffFirst(PortLostInRecovery);
    second := m.Fire(ToRecovery);
  }

  /**
   After `power_off`, a `boot_to_recovery` that loses the serial port and an `energize`, the board is powered and
   recorded as ENERGIZED while the recovery pin is still set.
   */
  method RecoveryStrapStaysHeld() returns (m: StateMachine, first: Outcome, second: Outcome, third: Outcome)
    ensures m.cfg.faithful && HasRecoveryPin(m.cfg)
    ensures first.Ok? && second.Raised? && third.Ok? && m.state.Energized? && m.powered && m.held
  {
    hide Trace, PowerAfter, GrewSafely, StrapsFollow, StateMachine.Smooth, AliveSince, LoaderSince;
    m, first, second := RaisedRecovery();
    third := m.Fire(ToEnergized(None));
  }

  /** With GPIO but no strap map, `energize` from the SD card returns, records the card and leaves the straps where they were. */
  method UnmappedMediumMismatches() returns (m: StateMachine, r: Outcome)
    ensures m.cfg.faithful && m.cfg.gpio && m.cfg.mapped == {}
    ensures r.Ok? && m.active == "sd" && m.strapped != Norm(m.active)
  {
    var cfg := Config(true, true, true, true, true, true, {}, STATION, true);
    m := new StateMachine(cfg, _ => Answer(Good, false, PowerOff, [], None), false);
    r := m.Fire(ToEnergized(Some("sd")));
  }

  /**
   Without `mark_dirty` after a raising trigger the claim fails: power off, an `energize` that loses the serial port,
   then a boot from another medium, and a strap moves on a powered board although the probe is faithful.
   */
  method RaisedEnergizeIsUnsafe() returns (m: StateMachine, first: Outcome, second: Outcome, third: Outcome)
    ensures m.cfg.faithful && first.Ok? && second.Raised? && Straps(true) in m.log
  {
    m, first, second := RaisedEnergizeMisleads();
    ghost var before := m.log;
    third := m.Fire(ToOs(Some("sd")));
    assert m.log[|before|] == Straps(true);
  }
}
