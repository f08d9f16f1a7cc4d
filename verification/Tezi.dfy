/** The TEZI install handshake: the event loop of `provision` after the payload was pushed. */
module Tezi {
  import opened Sequences
  import opened Text
  import EventStream

  const TX_PROBE_TOKEN := "__MES_TX_OK__"
  const MEDIA_OK := "__MES_MEDIA_OK__"
  const MEDIA_MISSING := "__MES_MEDIA_MISSING__"
  const PROBE_PATIENCE := 10.0
  const MEDIA_PATIENCE := 15.0
  const SHELL_PATIENCE := 15.0

  /** The stream's events, as far as the loop tells them apart. */
  datatype Event =
    | Panic
    | Shell
    | Signature
    | GenericPrompt
    | Data(line: string)
    | Other

  /** One turn: the event, the clock at each of the three deadline checks and after a write, and the write's luck. */
  datatype Turn = Turn(event: Event, t1: real, t2: real, t3: real, t4: real, writeOk: bool)

  /** Clock readings and write luck of one turn. */
  datatype Luck = Luck(t1: real, t2: real, t3: real, t4: real, writeOk: bool)

  function TurnOf(e: Event, l: Luck): Turn {
    Turn(e, l.t1, l.t2, l.t3, l.t4, l.writeOk)
  }

  const IN_TIME := Luck(0.0, 0.0, 0.0, 0.0, true)

  datatype Step = Probe | MediaScript | LogTail

  /** A write attempt: what, in which turn, at what time it was over, and whether it raised. */
  datatype Write = Write(step: Step, turn: nat, time: real, ok: bool)

  datatype Fault = MediaTimeout | MediaAbsent
  datatype Outcome = Success | Failure | Raised(fault: Fault)

  function Plan(n: nat): seq<Step>
    requires n <= 3
  {
    [Probe, MediaScript, LogTail][..n]
  }

  predicate FollowsPlan(writes: seq<Write>) {
    && |writes| <= 3
    && forall i :: 0 <= i < |writes| ==> writes[i].step == Plan(3)[i]
  }

  /** Some turn in `lo..hi` came after the deadline `d` at its first check. */
  predicate ProbeExpired(turns: seq<Turn>, lo: int, hi: int, d: real) {
    exists j :: 0 <= lo <= j < hi <= |turns| && turns[j].t1 > d
  }

  predicate ShellExpired(turns: seq<Turn>, hi: int, d: real) {
    exists j :: 0 <= j < hi <= |turns| && turns[j].t3 > d
  }

  /** The log is being tailed. */
  predicate Tailing(writes: seq<Write>) {
    |writes| == 3 && writes[2].ok
  }

  /** RX-only mode: a probe or script write failed, the echo never came back in time, or no shell showed up in time. */
  predicate RxOnly(turns: seq<Turn>, n: int, start: real, writes: seq<Write>) {
    || (1 <= |writes| <= 2 && !writes[|writes| - 1].ok)
    || (|writes| == 1 && writes[0].ok && ProbeExpired(turns, writes[0].turn + 1, n, writes[0].time + PROBE_PATIENCE))
    || (writes == [] && ShellExpired(turns, n, start + SHELL_PATIENCE))
  }

  predicate Echo(e: Event) {
    e.Data? && Occurs(e.line, TX_PROBE_TOKEN)
  }

  predicate MediaFound(e: Event) {
    e.Data? && Strip(e.line) == MEDIA_OK
  }

  predicate MediaMissed(e: Event) {
    e.Data? && Strip(e.line) == MEDIA_MISSING
  }

  /** The event that calls for a step. */
  predicate CallsFor(e: Event, step: Step) {
    match step
    case Probe => e.Shell?
    case MediaScript => Echo(e)
    case LogTail => MediaFound(e)
  }

  // ---------------------------------------------------------------- what the loop does, without its flags

  /** The media script was written, and its answer is outstanding. */
  predicate AwaitsMedia(writes: seq<Write>) {
    |writes| == 2 && writes[1].ok
  }

  /** The step that turn `k` takes after the attempts `writes`. */
  function DueAt(turns: seq<Turn>, k: nat, start: real, writes: seq<Write>): Option<Step>
    requires k < |turns|
  {
    var e := turns[k].event;
    if e.Shell? && writes == [] && !RxOnly(turns, k + 1, start, writes) then Some(Probe)
    else if Echo(e) && |writes| == 1 && !RxOnly(turns, k + 1, start, writes) then Some(MediaScript)
    else if MediaFound(e) && AwaitsMedia(writes) then Some(LogTail)
    else None
  }

  function After(turns: seq<Turn>, k: nat, start: real, writes: seq<Write>): seq<Write>
    requires k < |turns|
  {
    var due := DueAt(turns, k, start, writes);
    if due.None? then writes else writes + [Write(due.value, k, turns[k].t4, turns[k].writeOk)]
  }

  /** The write attempts of the first `n` turns. */
  function Attempts(turns: seq<Turn>, start: real, n: nat): seq<Write>
    requires n <= |turns|
  {
    if n == 0 then [] else After(turns, n - 1, start, Attempts(turns, start, n - 1))
  }

  /** How turn `k` ends the loop, if it does, after the attempts `writes`. */
  function VerdictAt(turns: seq<Turn>, k: nat, start: real, writes: seq<Write>): Option<Outcome>
    requires k < |turns|
  {
    var e := turns[k].event;
    if e.Panic? then Some(Failure)
    else if AwaitsMedia(writes) && turns[k].t2 > writes[1].time + MEDIA_PATIENCE then Some(Raised(MediaTimeout))
    else if e.Signature? then Some(Success)
    else if e.GenericPrompt? && (Tailing(writes) || RxOnly(turns, k + 1, start, writes)) then Some(Success)
    else if MediaMissed(e) && AwaitsMedia(writes) then Some(Raised(MediaAbsent))
    else None
  }

  /** The loop ends in turn `last` with `outcome`, or runs out of turns. */
  predicate Ends(turns: seq<Turn>, start: real, last: nat, outcome: Outcome) {
    && last <= |turns|
    && (forall k :: 0 <= k < last ==> VerdictAt(turns, k, start, Attempts(turns, start, k)).None?)
    && (if last < |turns| then VerdictAt(turns, last, start, Attempts(turns, start, last)) == Some(outcome)
        else outcome.Failure?)
  }

  /** Attempts follow the plan, later ones only after success, in increasing turns below `n`. */
  predicate WritesInv(writes: seq<Write>, n: int) {
    && FollowsPlan(writes)
    && (forall i :: 0 <= i < |writes| ==> writes[i].turn < n)
    && (forall i, j :: 0 <= i < j < |writes| ==> writes[i].turn < writes[j].turn && writes[i].ok)
  }

  /** Every write answers the event that calls for it. */
  predicate Caused(turns: seq<Turn>, writes: seq<Write>) {
    forall i :: 0 <= i < |writes| ==>
      var w := writes[i];
      && 0 <= w.turn < |turns| && CallsFor(turns[w.turn].event, w.step)
      && w.ok == turns[w.turn].writeOk && w.time == turns[w.turn].t4
  }

  lemma PlanSnoc(turns: seq<Turn>, n: nat, writes: seq<Write>, x: Write)
    requires n < |turns| && WritesInv(writes, n) && |writes| < 3 && (writes != [] ==> writes[|writes| - 1].ok)
    requires x == Write(Plan(3)[|writes|], n, turns[n].t4, turns[n].writeOk) && CallsFor(turns[n].event, x.step)
    ensures WritesInv(writes + [x], n + 1)
    ensures Caused(turns, writes) ==> Caused(turns, writes + [x])
  {
    hide CallsFor;
  }

  lemma AfterKeeps(turns: seq<Turn>, n: nat, start: real, writes: seq<Write>)
    requires n < |turns| && WritesInv(writes, n)
    ensures WritesInv(After(turns, n, start, writes), n + 1)
    ensures Caused(turns, writes) ==> Caused(turns, After(turns, n, start, writes))
  {
    hide ProbeExpired, ShellExpired, Echo, MediaFound, Caused;
    var due := DueAt(turns, n, start, writes);
    if due.Some? {
      PlanSnoc(turns, n, writes, Write(due.value, n, turns[n].t4, turns[n].writeOk));
    }
  }

  /** Probe, script and tail are written in this order, each at most once, after the event that calls for it. */
  lemma {:induction false} AttemptsFollowPlan(turns: seq<Turn>, start: real, n: nat)
    requires n <= |turns|
    ensures WritesInv(Attempts(turns, start, n), n) && Caused(turns, Attempts(turns, start, n))
  {
    hide WritesInv, Caused, After;
    if n == 0 {
      Unwritten(turns);
    } else {
      AttemptsFollowPlan(turns, start, n - 1);
      AfterKeeps(turns, n - 1, start, Attempts(turns, start, n - 1));
    }
  }

  lemma Unwritten(turns: seq<Turn>)
    ensures WritesInv([], 0) && Caused(turns, [])
  {
  }

  predicate NoCall(turns: seq<Turn>, lo: int, hi: int, step: Step) {
    forall k :: 0 <= lo <= k < hi <= |turns| ==> !CallsFor(turns[k].event, step)
  }

  /** No call for the next step went unanswered in the first `n` turns, unless patience ran out. */
  predicate NothingMissed(turns: seq<Turn>, n: int, start: real, writes: seq<Write>) {
    && (writes == [] && !RxOnly(turns, n, start, writes) ==> NoCall(turns, 0, n, Probe))
    && (|writes| == 1 && !RxOnly(turns, n, start, writes) ==> NoCall(turns, writes[0].turn + 1, n, MediaScript))
    && (AwaitsMedia(writes) ==> NoCall(turns, writes[1].turn + 1, n, LogTail))
  }

  lemma RxOnlySnoc(turns: seq<Turn>, n: nat, start: real, writes: seq<Write>)
    requires n < |turns| && WritesInv(writes, n)
    ensures RxOnly(turns, n + 1, start, writes) <==>
            || RxOnly(turns, n, start, writes)
            || (|writes| == 1 && writes[0].ok && turns[n].t1 > writes[0].time + PROBE_PATIENCE)
            || (writes == [] && turns[n].t3 > start + SHELL_PATIENCE)
  {
    if writes == [] {
      assert turns[n].t3 > start + SHELL_PATIENCE ==> ShellExpired(turns, n + 1, start + SHELL_PATIENCE);
    }
    if |writes| == 1 {
      var d := writes[0].time + PROBE_PATIENCE;
      assert turns[n].t1 > d ==> ProbeExpired(turns, writes[0].turn + 1, n + 1, d);
    }
  }

  lemma CallSnoc(turns: seq<Turn>, lo: nat, n: nat, step: Step)
    requires n < |turns|
    ensures NoCall(turns, lo, n + 1, step) <==> NoCall(turns, lo, n, step) && (lo <= n ==> !CallsFor(turns[n].event, step))
  {
    hide CallsFor;
  }

  lemma StepAnswered(turns: seq<Turn>, n: nat, start: real, writes: seq<Write>)
    requires n < |turns| && WritesInv(writes, n) && NothingMissed(turns, n, start, writes)
    ensures NothingMissed(turns, n + 1, start, After(turns, n, start, writes))
  {
    RxOnlySnoc(turns, n, start, writes);
    hide RxOnly, NoCall, Echo, MediaFound;
    var due, next := DueAt(turns, n, start, writes), After(turns, n, start, writes);
    CallSnoc(turns, 0, n, Probe);
    if |writes| >= 1 {
      CallSnoc(turns, writes[0].turn + 1, n, MediaScript);
    }
    if |writes| == 2 {
      CallSnoc(turns, writes[1].turn + 1, n, LogTail);
    }
    if due.Some? {
      NoCallYet(turns, n, MediaScript);
      NoCallYet(turns, n, LogTail);
      assert next == writes + [Write(due.value, n, turns[n].t4, turns[n].writeOk)];
    }
  }

  lemma NoCallYet(turns: seq<Turn>, n: nat, step: Step)
    ensures NoCall(turns, n, n, step) && NoCall(turns, n + 1, n + 1, step)
  {
  }

  lemma {:induction false} EventsAnswered(turns: seq<Turn>, start: real, n: nat)
    requires n <= |turns|
    ensures NothingMissed(turns, n, start, Attempts(turns, start, n))
  {
    if n == 0 {
      hide NoCall, RxOnly;
      NoCallYet(turns, 0, Probe);
    } else {
      hide WritesInv, Caused, After, NothingMissed;
      AttemptsFollowPlan(turns, start, n - 1);
      EventsAnswered(turns, start, n - 1);
      StepAnswered(turns, n - 1, start, Attempts(turns, start, n - 1));
    }
  }

  /** Once the write of the tail failed, no generic prompt is ever taken for success: there is no RX-only fallback. */
  lemma {:induction false} FailedTailIsFinal(turns: seq<Turn>, start: real, m: nat, n: nat)
    requires m <= n <= |turns| && |Attempts(turns, start, m)| == 3 && !Attempts(turns, start, m)[2].ok
    ensures Attempts(turns, start, n) == Attempts(turns, start, m)
    ensures n < |turns| && turns[n].event.GenericPrompt? ==>
              VerdictAt(turns, n, start, Attempts(turns, start, n)).None?
    decreases n
  {
    if m < n {
      FailedTailIsFinal(turns, start, m, n - 1);
    }
  }

  // ---------------------------------------------------------------- the loop itself

  /** The loop's local variables, and the writes it has attempted. */
  datatype Locals = Locals(
    tailSent: bool, txProbeSent: bool, txVerified: bool, probeDeadline: real,
    mediaSent: bool, mediaVerified: bool, mediaDeadline: real, writes: seq<Write>)

  /** The flags mean what their names say, `seen` turns after the start. */
  predicate FlagsInv(turns: seq<Turn>, seen: int, start: real, v: Locals) {
    && (v.txProbeSent <==> |v.writes| >= 1 && v.writes[0].ok)
    && (v.txProbeSent ==> v.probeDeadline == v.writes[0].time + PROBE_PATIENCE)
    && (v.mediaSent <==> |v.writes| >= 2 && v.writes[1].ok)
    && (v.mediaSent ==> v.mediaDeadline == v.writes[1].time + MEDIA_PATIENCE)
    && (v.mediaVerified <==> |v.writes| == 3)
    && (v.tailSent <==> Tailing(v.writes) || RxOnly(turns, seen, start, v.writes))
    && (v.txVerified <==> |v.writes| >= 2 || (v.txProbeSent && v.tailSent))
  }

  /** The deadline checks at the top of a turn. */
  method CheckDeadlines(turns: seq<Turn>, n: nat, start: real, v: Locals) returns (w: Locals, mediaLate: bool)
    requires n < |turns| && WritesInv(v.writes, n) && FlagsInv(turns, n, start, v)
    ensures w.writes == v.writes
    ensures mediaLate <==> AwaitsMedia(v.writes) && turns[n].t2 > v.writes[1].time + MEDIA_PATIENCE
    ensures !mediaLate ==> FlagsInv(turns, n + 1, start, w)
  {
    RxOnlySnoc(turns, n, start, v.writes);
    FlagsBefore(turns, n, start, v);
    hide RxOnly;
    w, mediaLate := v, false;
    if w.txProbeSent && !w.txVerified && turns[n].t1 > w.probeDeadline {
      w := w.(txVerified := true, tailSent := true);
    }
    if w.mediaSent && !w.mediaVerified && turns[n].t2 > w.mediaDeadline {
      mediaLate := true;
      return;
    }
    if !w.tailSent && !w.txProbeSent && turns[n].t3 > start + SHELL_PATIENCE {
      w := w.(tailSent := true);
    }
  }

  /** Which wait is on, read off the flags. */
  lemma FlagsBefore(turns: seq<Turn>, n: nat, start: real, v: Locals)
    requires WritesInv(v.writes, n) && FlagsInv(turns, n, start, v)
    ensures |v.writes| == 1 && !v.writes[0].ok ==> RxOnly(turns, n, start, v.writes)
    ensures !v.tailSent && !v.txProbeSent <==> v.writes == [] && !RxOnly(turns, n, start, v.writes)
    ensures v.txProbeSent && !v.txVerified <==> |v.writes| == 1 && !RxOnly(turns, n, start, v.writes)
    ensures v.mediaSent && !v.mediaVerified <==> AwaitsMedia(v.writes)
  {
    hide ProbeExpired, ShellExpired;
  }

  /** In the turn of a write, RX-only mode depends on its luck alone. */
  lemma WroteNow(turns: seq<Turn>, n: nat, start: real, writes: seq<Write>, x: Write)
    requires x.turn == n
    ensures RxOnly(turns, n + 1, start, writes + [x]) <==> |writes| <= 1 && !x.ok
  {
    assert !ProbeExpired(turns, n + 1, n + 1, x.time + PROBE_PATIENCE);
  }

  /** A shell prompt: probe the TX line, once. */
  method OnShell(turns: seq<Turn>, n: nat, start: real, v: Locals) returns (w: Locals)
    requires n < |turns| && WritesInv(v.writes, n) && FlagsInv(turns, n + 1, start, v)
    requires turns[n].event.Shell?
    ensures FlagsInv(turns, n + 1, start, w) && w.writes == After(turns, n, start, v.writes)
  {
    FlagsBefore(turns, n + 1, start, v);
    hide RxOnly;
    w := v;
    if !v.tailSent && !v.txProbeSent {
      var attempt := Write(Probe, n, turns[n].t4, turns[n].writeOk);
      WroteNow(turns, n, start, v.writes, attempt);
      w := w.(writes := v.writes + [attempt]);
      if turns[n].writeOk {
        w := w.(txProbeSent := true, probeDeadline := turns[n].t4 + PROBE_PATIENCE);
      } else {
        w := w.(tailSent := true);
      }
    }
  }

  /** The echo of the probe: write the media script. */
  method OnEcho(turns: seq<Turn>, n: nat, start: real, v: Locals) returns (w: Locals)
    requires n < |turns| && WritesInv(v.writes, n) && FlagsInv(turns, n + 1, start, v)
    requires Echo(turns[n].event) && v.txProbeSent && !v.txVerified
    ensures FlagsInv(turns, n + 1, start, w) && w.writes == After(turns, n, start, v.writes)
  {
    FlagsBefore(turns, n + 1, start, v);
    hide RxOnly, Echo;
    var attempt := Write(MediaScript, n, turns[n].t4, turns[n].writeOk);
    WroteNow(turns, n, start, v.writes, attempt);
    w := v.(txVerified := true, writes := v.writes + [attempt]);
    if turns[n].writeOk {
      w := w.(mediaSent := true, mediaDeadline := turns[n].t4 + MEDIA_PATIENCE);
    } else {
      w := w.(tailSent := true);
    }
  }

  /** The media are there: write the log tail. A failure of this write is only logged. */
  method OnMediaFound(turns: seq<Turn>, n: nat, start: real, v: Locals) returns (w: Locals)
    requires n < |turns| && WritesInv(v.writes, n) && FlagsInv(turns, n + 1, start, v)
    requires MediaFound(turns[n].event) && v.mediaSent && !v.mediaVerified
    ensures FlagsInv(turns, n + 1, start, w) && w.writes == After(turns, n, start, v.writes)
  {
    FlagsBefore(turns, n + 1, start, v);
    hide Echo, MediaFound, ProbeExpired, ShellExpired;
    var attempt := Write(LogTail, n, turns[n].t4, turns[n].writeOk);
    w := v.(mediaVerified := true, writes := v.writes + [attempt]);
    if turns[n].writeOk {
      w := w.(tailSent := true);
    }
  }

  /** A console line: the probe's echo starts the media script, the script's verdict starts the log tail. */
  method OnData(turns: seq<Turn>, n: nat, start: real, v: Locals, line: string) returns (w: Locals, mediaAbsent: bool)
    requires n < |turns| && WritesInv(v.writes, n) && FlagsInv(turns, n + 1, start, v)
    requires turns[n].event == Data(line)
    ensures FlagsInv(turns, n + 1, start, w) && w.writes == After(turns, n, start, v.writes)
    ensures mediaAbsent <==> MediaMissed(turns[n].event) && AwaitsMedia(v.writes)
  {
    FlagsBefore(turns, n + 1, start, v);
    hide RxOnly, FlagsInv;
    w, mediaAbsent := v, false;
    if v.txProbeSent && !v.txVerified {
      if Occurs(line, TX_PROBE_TOKEN) {
        w := OnEcho(turns, n, start, v);
      }
    } else if v.mediaSent && !v.mediaVerified {
      var cleanLine := Strip(line);
      if cleanLine == MEDIA_OK {
        w := OnMediaFound(turns, n, start, v);
      } else if cleanLine == MEDIA_MISSING {
        mediaAbsent := true;
      }
    }
  }

  /** One turn of the loop: carry on, or end with an outcome. */
  method OneTurn(turns: seq<Turn>, n: nat, start: real, v: Locals) returns (w: Locals, verdict: Option<Outcome>)
    requires n < |turns| && WritesInv(v.writes, n) && FlagsInv(turns, n, start, v)
    ensures verdict == VerdictAt(turns, n, start, v.writes)
    ensures verdict.None? ==> w.writes == After(turns, n, start, v.writes) && FlagsInv(turns, n + 1, start, w)
  {
    hide RxOnly, Strip, Occurs;
    w, verdict := v, None;
    var event := turns[n].event;
    if event.Panic? {
      return v, Some(Failure);
    }
    var mediaLate;
    w, mediaLate := CheckDeadlines(turns, n, start, v);
    if mediaLate {
      return w, Some(Raised(MediaTimeout));
    }
    match event
    case Shell =>
      w := OnShell(turns, n, start, w);
    case Signature =>
      return w, Some(Success);
    case GenericPrompt =>
      if w.tailSent {
        return w, Some(Success);
      }
    case Data(line) =>
      var mediaAbsent;
      w, mediaAbsent := OnData(turns, n, start, w, line);
      if mediaAbsent {
        return w, Some(Raised(MediaAbsent));
      }
    case Other =>
  }

  /**
   The log is being tailed, or the loop has given up writing: the probe or the script could not be written, the echo was
   not back within ten seconds, or no shell was there within fifteen.
   */
  predicate GenericTrusted(turns: seq<Turn>, k: nat, start: real, writes: seq<Write>)
    requires k < |turns|
  {
    match |writes|
    case 0 => exists j :: 0 <= j <= k && turns[j].t3 > start + 15.0
    case 1 => !writes[0].ok || exists j :: 0 <= writes[0].turn < j <= k && turns[j].t1 > writes[0].time + 10.0
    case 2 => !writes[1].ok
    case _ => |writes| == 3 && writes[2].ok
  }

  /** What a verdict stands for. */
  lemma Explained(turns: seq<Turn>, k: nat, start: real, writes: seq<Write>)
    requires k < |turns|
    ensures var e, asked := turns[k].event, |writes| == 2 && writes[1].ok;
            VerdictAt(turns, k, start, writes) ==
            if e.Panic? then Some(Failure)
            else if asked && turns[k].t2 > writes[1].time + 15.0 then Some(Raised(MediaTimeout))
            else if e.Signature? || (e.GenericPrompt? && GenericTrusted(turns, k, start, writes)) then Some(Success)
            else if asked && e.Data? && Strip(e.line) == MEDIA_MISSING then Some(Raised(MediaAbsent))
            else None
  {
    hide Strip;
    assert GenericTrusted(turns, k, start, writes) <==> Tailing(writes) || RxOnly(turns, k + 1, start, writes);
  }

  /** The loop. `turns` ends where the stream ends; `last` is the turn that decided the outcome. */
  method Provision(turns: seq<Turn>, start: real, fsmSupplied: bool)
      returns (outcome: Outcome, writes: seq<Write>, last: nat, fsmEnergized: bool)
    ensures Ends(turns, start, last, outcome) && writes == Attempts(turns, start, last)
    ensures |writes| >= 1 ==> writes[0].turn < last && turns[writes[0].turn].event.Shell?
    ensures |writes| >= 2 ==>
              && writes[0].ok && writes[0].turn < writes[1].turn < last
              && turns[writes[1].turn].event.Data? && Occurs(turns[writes[1].turn].event.line, "__MES_TX_OK__")
    ensures |writes| >= 3 ==>
              && writes[1].ok && writes[1].turn < writes[2].turn < last
              && turns[writes[2].turn].event.Data? && Strip(turns[writes[2].turn].event.line) == "__MES_MEDIA_OK__"
    ensures last < |turns| && turns[last].event.Panic? ==> outcome.Failure?
    ensures outcome.Success? ==>
              && last < |turns|
              && (|| turns[last].event.Signature?
                  || (turns[last].event.GenericPrompt? && GenericTrusted(turns, last, start, writes)))
    ensures outcome.Failure? ==> last == |turns| || turns[last].event.Panic?
    ensures outcome == Raised(MediaTimeout) ==>
              last < |turns| && |writes| == 2 && writes[1].ok && turns[last].t2 > writes[1].time + 15.0
    ensures outcome == Raised(MediaAbsent) ==>
              && last < |turns| && |writes| == 2 && writes[1].ok
              && turns[last].event.Data? && Strip(turns[last].event.line) == MEDIA_MISSING
    ensures forall k :: 0 <= k < last ==>
              && !turns[k].event.Panic? && !turns[k].event.Signature?
              && (turns[k].event.GenericPrompt? ==> !GenericTrusted(turns, k, start, Attempts(turns, start, k)))
    ensures forall k :: 0 <= k < last ==>
              var sent := Attempts(turns, start, k);
              |sent| == 2 && sent[1].ok ==>
                && turns[k].t2 <= sent[1].time + 15.0
                && (turns[k].event.Data? ==> Strip(turns[k].event.line) != MEDIA_MISSING)
    ensures fsmEnergized <==> fsmSupplied && outcome.Success?
  {
    hide VerdictAt, After, WritesInv, Caused, GenericTrusted, Strip;
    fsmEnergized, outcome := false, Failure;
    var v := Locals(false, false, false, 0.0, false, false, 0.0, []);
    last := 0;
    while last < |turns|
      invariant last <= |turns| && !fsmEnergized && outcome.Failure?
      invariant v.writes == Attempts(turns, start, last) && FlagsInv(turns, last, start, v)
      invariant forall k :: 0 <= k < last ==> VerdictAt(turns, k, start, Attempts(turns, start, k)).None?
    {
      AttemptsFollowPlan(turns, start, last);
      writes := v.writes;
      var verdict;
      v, verdict := OneTurn(turns, last, start, v);
      if verdict.Some? {
        outcome := verdict.value;
        if outcome.Success? {
          fsmEnergized := fsmSupplied;
        }
        EndsExplained(turns, start, last, outcome);
        WritesAnswer(turns, start, last);
        return;
      }
      last := last + 1;
    }
    writes := v.writes;
    EndsExplained(turns, start, last, outcome);
    WritesAnswer(turns, start, last);
  }

  /** Which event each write answers. */
  lemma WritesAnswer(turns: seq<Turn>, start: real, n: nat)
    requires n <= |turns|
    ensures var writes := Attempts(turns, start, n);
            && (|writes| >= 1 ==> writes[0].turn < n && turns[writes[0].turn].event.Shell?)
            && (|writes| >= 2 ==>
                  && writes[0].ok && writes[0].turn < writes[1].turn < n
                  && turns[writes[1].turn].event.Data? && Occurs(turns[writes[1].turn].event.line, "__MES_TX_OK__"))
            && (|writes| >= 3 ==>
                  && writes[1].ok && writes[1].turn < writes[2].turn < n
                  && turns[writes[2].turn].event.Data? && Strip(turns[writes[2].turn].event.line) == "__MES_MEDIA_OK__")
  {
    AttemptsFollowPlan(turns, start, n);
    hide Attempts, Occurs, Strip;
  }

  lemma EndsExplained(turns: seq<Turn>, start: real, last: nat, outcome: Outcome)
    requires Ends(turns, start, last, outcome)
    ensures var writes := Attempts(turns, start, last);
            && (last < |turns| && turns[last].event.Panic? ==> outcome.Failure?)
            && (outcome.Success? ==>
                  && last < |turns|
                  && (|| turns[last].event.Signature?
                      || (turns[last].event.GenericPrompt? && GenericTrusted(turns, last, start, writes))))
            && (outcome.Failure? ==> last == |turns| || turns[last].event.Panic?)
            && (outcome == Raised(MediaTimeout) ==>
                  last < |turns| && |writes| == 2 && writes[1].ok && turns[last].t2 > writes[1].time + 15.0)
            && (outcome == Raised(MediaAbsent) ==>
                  && last < |turns| && |writes| == 2 && writes[1].ok
                  && turns[last].event.Data? && Strip(turns[last].event.line) == MEDIA_MISSING)
    ensures forall k :: 0 <= k < last ==>
              && !turns[k].event.Panic? && !turns[k].event.Signature?
              && (turns[k].event.GenericPrompt? ==> !GenericTrusted(turns, k, start, Attempts(turns, start, k)))
    ensures forall k :: 0 <= k < last ==>
              var sent := Attempts(turns, start, k);
              |sent| == 2 && sent[1].ok ==>
                && turns[k].t2 <= sent[1].time + 15.0
                && (turns[k].event.Data? ==> Strip(turns[k].event.line) != MEDIA_MISSING)
  {
    hide VerdictAt, GenericTrusted, Strip, Attempts;
    if last < |turns| {
      Explained(turns, last, start, Attempts(turns, start, last));
    }
    forall k | 0 <= k < last ensures VerdictAt(turns, k, start, Attempts(turns, start, k)).None? {
    }
    forall k | 0 <= k < last
      ensures !turns[k].event.Panic? && !turns[k].event.Signature?
      ensures turns[k].event.GenericPrompt? ==> !GenericTrusted(turns, k, start, Attempts(turns, start, k))
      ensures var sent := Attempts(turns, start, k);
              |sent| == 2 && sent[1].ok ==>
                && turns[k].t2 <= sent[1].time + 15.0
                && (turns[k].event.Data? ==> Strip(turns[k].event.line) != MEDIA_MISSING)
    {
      Explained(turns, k, start, Attempts(turns, start, k));
    }
  }

  /** The tail is written in vain, and the caller's token comes afterwards: the flash is reported as failed. */
  method FailedTailFails() returns (outcome: Outcome, writes: seq<Write>, last: nat)
    ensures UNTAILED[3].event.GenericPrompt? && |writes| == 3 && !writes[2].ok && last == |UNTAILED| && outcome.Failure?
  {
    var fsmEnergized;
    UntailedRun();
    outcome, writes, last, fsmEnergized := Provision(UNTAILED, 0.0, false);
  }

  const UNTAILED: seq<Turn> := [
    TurnOf(Shell, IN_TIME), TurnOf(Data(TX_PROBE_TOKEN), IN_TIME), TurnOf(Data(MEDIA_OK), IN_TIME.(writeOk := false)),
    TurnOf(GenericPrompt, IN_TIME)]

  lemma UntailedRun()
    ensures forall k :: 0 <= k < 4 ==> VerdictAt(UNTAILED, k, 0.0, Attempts(UNTAILED, 0.0, k)).None?
    ensures |Attempts(UNTAILED, 0.0, 4)| == 3 && !Attempts(UNTAILED, 0.0, 4)[2].ok
  {
    assert OccursAt(TX_PROBE_TOKEN, TX_PROBE_TOKEN, 0);
    assert Strip(MEDIA_OK) == MEDIA_OK && Strip(TX_PROBE_TOKEN) == TX_PROBE_TOKEN;
    assert Attempts(UNTAILED, 0.0, 0) == [];
    assert Attempts(UNTAILED, 0.0, 1) == [Write(Probe, 0, 0.0, true)];
    assert Attempts(UNTAILED, 0.0, 2) == [Write(Probe, 0, 0.0, true), Write(MediaScript, 1, 0.0, true)];
    assert Attempts(UNTAILED, 0.0, 3) ==
           [Write(Probe, 0, 0.0, true), Write(MediaScript, 1, 0.0, true), Write(LogTail, 2, 0.0, false)];
    assert Attempts(UNTAILED, 0.0, 4) == Attempts(UNTAILED, 0.0, 3);
  }

  // ---------------------------------------------------------------- the loop behind the event stream

  const INSTALLED := "Successfully installed"
  const REBOOTING := "Restarting system"
  const LOGIN := "login:"

  /** The tokens trusted whenever they are seen. */
  const SIGNATURES: seq<string> := [INSTALLED, REBOOTING, LOGIN]

  /** The token of the generic prompt: the caller's, or the login prompt. */
  function Token(success: string): string {
    if success == "" then LOGIN else success
  }

  const SHELL_PROMPTS: seq<EventStream.Prompt> := [
    EventStream.Prompt("tezi_shell_hash", "~ #"),
    EventStream.Prompt("tezi_shell_root", "root@"),
    EventStream.Prompt("tezi_shell_slash", "/ #")]

  const GENERIC := 5

  function Prompts(success: string): seq<EventStream.Prompt> {
    SHELL_PROMPTS + [
      EventStream.Prompt("success_installed", INSTALLED),
      EventStream.Prompt("success_rebooting", REBOOTING),
      EventStream.Prompt("success_prompt", Token(success)),
      EventStream.Prompt("post_install_login", LOGIN)]
  }

  function StreamConfig(panics: seq<string>, success: string): EventStream.Config {
    EventStream.Config(panics, "", Prompts(success), [])
  }

  /** How the loop reads a stream event. */
  function Classify(e: EventStream.Event): Event {
    match e
    case PanicDetected => Panic
    case BootData(line) => Data(line)
    case PromptDetected(p) =>
      if p == "tezi_shell_hash" || p == "tezi_shell_root" || p == "tezi_shell_slash" then Shell
      else if p == "success_installed" || p == "success_rebooting" || p == "post_install_login" then Signature
      else if p == "success_prompt" then GenericPrompt
      else Other
    case AutobootWindow => Other
    case MilestoneReached(_) => Other
  }

  predicate LineBoundTokens(toks: seq<string>) {
    forall k :: 0 <= k < |toks| ==> LineBound(CR_OR_LF, toks[k])
  }

  predicate AnyHit(fed: seq<string>, toks: seq<string>) {
    exists k :: 0 <= k < |toks| && EventStream.Hit(fed, toks[k])
  }

  /** A stream that shows `t` shows every token inside `t`. */
  lemma HitInside(fed: seq<string>, t: string, s: string)
    requires LineBound(CR_OR_LF, t) && LineBound(CR_OR_LF, s) && Occurs(t, s) && EventStream.Hit(fed, t)
    ensures EventStream.Hit(fed, s)
  {
    EventStream.HitIsSeen(fed, t);
    EventStream.HitIsSeen(fed, s);
    var whole := Flat(fed);
    var i :| 0 <= i <= |whole| && OccursAt(whole, t, i);
    assert whole == whole[..i] + t + whole[i + |t|..];
    OccursInContext(whole[..i], t, whole[i + |t|..], s);
  }

  /** Every stream that shows `t` shows one of `toks` no later, exactly when one of them is inside `t`. */
  lemma SeenNoLaterIff(t: string, toks: seq<string>)
    requires LineBound(CR_OR_LF, t) && LineBoundTokens(toks)
    ensures (forall fed :: EventStream.Hit(fed, t) ==> AnyHit(fed, toks)) <==> AnyOccurs(t, toks)
  {
    if AnyOccurs(t, toks) {
      var k :| 0 <= k < |toks| && Occurs(t, toks[k]);
      forall fed | EventStream.Hit(fed, t) ensures AnyHit(fed, toks) {
        HitInside(fed, t, toks[k]);
      }
    } else {
      var one := [t];
      AloneShows(t, one, t);
      assert OccursAt(t, t, 0);
      forall k | 0 <= k < |toks| ensures !EventStream.Hit(one, toks[k]) {
        AloneShows(t, one, toks[k]);
      }
    }
  }

  /**
   The guard on the generic prompt never holds anything back, because a trusted token is seen no later, exactly when
   the generic token contains a trusted one; by default it is one.
   */
  lemma GuardIsIdleIff(success: string)
    requires LineBound(CR_OR_LF, Token(success))
    ensures (forall fed :: EventStream.Hit(fed, Token(success)) ==> AnyHit(fed, SIGNATURES)) <==>
            AnyOccurs(Token(success), SIGNATURES)
    ensures success == "" ==> AnyOccurs(Token(success), SIGNATURES)
  {
    SignaturesAreLineBound();
    SeenNoLaterIff(Token(success), SIGNATURES);
    DefaultContainsSignature();
  }

  /** In a stream that is `t` and nothing else, exactly the tokens inside `t` are seen. */
  lemma AloneShows(t: string, fed: seq<string>, s: string)
    requires LineBound(CR_OR_LF, s) && fed == [t]
    ensures EventStream.Hit(fed, s) <==> Occurs(t, s)
  {
    EventStream.HitIsSeen(fed, s);
    assert fed[..0] == [] && Flat(fed) == "" + t == t;
  }

  lemma SignaturesAreLineBound()
    ensures LineBoundTokens(SIGNATURES) && SIGNATURES[2] == LOGIN
    ensures forall k :: 0 <= k < |SHELL_PROMPTS| ==> LineBound(CR_OR_LF, SHELL_PROMPTS[k].token)
  {
  }

  /** At the default the generic token is itself a trusted one. */
  lemma DefaultContainsSignature()
    ensures AnyOccurs(Token(""), SIGNATURES)
  {
    assert OccursAt(LOGIN, SIGNATURES[2], 0);
  }

  /** The turns are the stream's events, event number `i` in turn `pos[i]`, with idle ticks anywhere between them. */
  ghost predicate Woven(turns: seq<Turn>, events: seq<EventStream.Event>, pos: seq<nat>, luck: nat -> Luck) {
    && |pos| == |events|
    && (forall i, j :: 0 <= i < j < |pos| ==> pos[i] < pos[j])
    && (forall i :: 0 <= i < |pos| ==> pos[i] < |turns| && turns[pos[i]].event == Classify(events[i]))
    && (forall k :: 0 <= k < |turns| ==> turns[k] == TurnOf(turns[k].event, luck(k)))
    && (forall k :: 0 <= k < |turns| ==> turns[k].event.Other? || k in pos)
  }

  /** A turn that is no idle tick shows an event of the stream. */
  lemma EventOf(turns: seq<Turn>, events: seq<EventStream.Event>, pos: seq<nat>, luck: nat -> Luck, k: nat)
      returns (i: nat)
    requires Woven(turns, events, pos, luck) && k < |turns| && !turns[k].event.Other?
    ensures i < |events| && i < |pos| && pos[i] == k && turns[k].event == Classify(events[i])
  {
    i :| 0 <= i < |pos| && pos[i] == k;
  }

  predicate ShellShown(cfg: EventStream.Config, fed: seq<string>) {
    exists k :: 0 <= k < |SHELL_PROMPTS| && EventStream.Shown(cfg, fed, SHELL_PROMPTS[k].token)
  }

  predicate SignatureShown(cfg: EventStream.Config, fed: seq<string>) {
    exists k :: 0 <= k < |SIGNATURES| && EventStream.Shown(cfg, fed, SIGNATURES[k])
  }

  /** A shell or signature turn comes from a prompt that was shown. */
  lemma TurnHasPrompt(cfg: EventStream.Config, success: string, fed: seq<string>, e: EventStream.Event)
    requires cfg == StreamConfig(cfg.panics, success) && e in EventStream.StreamEvents(cfg, fed)
    ensures Classify(e).Shell? ==> ShellShown(cfg, fed)
    ensures Classify(e).Signature? ==> SignatureShown(cfg, fed)
  {
    hide EventStream.StreamEvents, EventStream.Shown;
    if Classify(e).Shell? || Classify(e).Signature? {
      var k := PromptIndex(success, e);
      EventStream.PromptInStream(cfg, fed, k);
      if k < 3 {
        assert cfg.prompts[k] == SHELL_PROMPTS[k];
      } else {
        assert cfg.prompts[k].token == SIGNATURES[if k == 6 then 2 else k - 3];
      }
    }
  }

  lemma PromptIndex(success: string, e: EventStream.Event) returns (k: nat)
    requires Classify(e).Shell? || Classify(e).Signature?
    ensures k < |Prompts(success)| && e == EventStream.PromptDetected(Prompts(success)[k].ptype)
    ensures k != GENERIC && (k < 3 <==> Classify(e).Shell?)
  {
    var p := e.ptype;
    k := if p == "tezi_shell_hash" then 0 else if p == "tezi_shell_root" then 1 else if p == "tezi_shell_slash" then 2
         else if p == "success_installed" then 3 else if p == "success_rebooting" then 4 else 6;
  }

  lemma PromptsAreDistinct(success: string)
    ensures EventStream.DistinctPrompts(Prompts(success)) && |Prompts(success)| == 7
  {
  }

  /** The console shows the generic token, and a trusted one is inside it. */
  predicate GuardIdle(cfg: EventStream.Config, token: string, fed: seq<string>) {
    LineBound(CR_OR_LF, token) && AnyOccurs(token, SIGNATURES) && EventStream.Shown(cfg, fed, token)
  }

  lemma InsideIsShown(cfg: EventStream.Config, token: string, fed: seq<string>)
    requires GuardIdle(cfg, token, fed)
    ensures SignatureShown(cfg, fed)
  {
    SignaturesAreLineBound();
    var k :| 0 <= k < |SIGNATURES| && Occurs(token, SIGNATURES[k]);
    var n :| 0 < n <= |fed| && !EventStream.PanicHit(cfg, fed[..n]) && EventStream.Hit(fed[..n], token);
    HitInside(fed[..n], token, SIGNATURES[k]);
    assert EventStream.Shown(cfg, fed, SIGNATURES[k]);
  }

  lemma SignatureIndex(success: string, k: nat) returns (i: nat)
    requires k < |SIGNATURES|
    ensures i < |Prompts(success)| && Prompts(success)[i].token == SIGNATURES[k]
    ensures Classify(EventStream.PromptDetected(Prompts(success)[i].ptype)).Signature?
  {
    i := if k == 2 then 6 else k + 3;
  }

  lemma TrustedInStream(cfg: EventStream.Config, fed: seq<string>, i: nat, e: EventStream.Event)
    requires EventStream.DistinctPrompts(cfg.prompts) && i < |cfg.prompts|
    requires e == EventStream.PromptDetected(cfg.prompts[i].ptype) && EventStream.Shown(cfg, fed, cfg.prompts[i].token)
    ensures e in EventStream.StreamEvents(cfg, fed)
  {
    EventStream.PromptInStream(cfg, fed, i);
  }

  lemma SignatureInStream(cfg: EventStream.Config, success: string, fed: seq<string>) returns (e: EventStream.Event)
    requires cfg == StreamConfig(cfg.panics, success) && SignatureShown(cfg, fed)
    ensures e in EventStream.StreamEvents(cfg, fed) && Classify(e).Signature?
  {
    hide EventStream.StreamEvents, EventStream.Shown;
    var k :| 0 <= k < |SIGNATURES| && EventStream.Shown(cfg, fed, SIGNATURES[k]);
    var i := SignatureIndex(success, k);
    PromptsAreDistinct(success);
    e := EventStream.PromptDetected(cfg.prompts[i].ptype);
    TrustedInStream(cfg, fed, i, e);
  }

  /** The turn of a panic comes behind the turns of all events. */
  lemma PanicTurnIsLast(events: seq<EventStream.Event>, turns: seq<Turn>, pos: seq<nat>, luck: nat -> Luck, n: nat, k: nat)
    requires Woven(turns, events, pos, luck) && n < |turns| && turns[n].event.Panic? && k < |events|
    requires forall i :: 0 <= i < |events| - 1 ==> !events[i].PanicDetected?
    ensures pos[k] <= n
  {
    var i := EventOf(turns, events, pos, luck, n);
  }

  /** A loop that has met no trusted event, though one is in the stream, is neither at its end nor at a panic. */
  lemma NotAtEnd(events: seq<EventStream.Event>, turns: seq<Turn>, pos: seq<nat>, luck: nat -> Luck, last: nat,
                 e: EventStream.Event)
    requires Woven(turns, events, pos, luck) && e in events && Classify(e).Signature?
    requires forall i :: 0 <= i < |events| - 1 ==> !events[i].PanicDetected?
    requires forall k :: 0 <= k < last && k < |turns| ==> !turns[k].event.Signature?
    ensures last < |turns| && !turns[last].event.Panic?
  {
    var k :| 0 <= k < |events| && events[k] == e;
    assert turns[pos[k]].event == Classify(e) && last <= pos[k];
    if turns[last].event.Panic? {
      PanicTurnIsLast(events, turns, pos, luck, last, k);
    }
  }

  /** With a trusted token inside the generic one that was shown, the loop does not run out of events or into a panic. */
  lemma NoPlainFailure(cfg: EventStream.Config, success: string, fed: seq<string>, turns: seq<Turn>, pos: seq<nat>,
                       luck: nat -> Luck, last: nat)
    requires cfg == StreamConfig(cfg.panics, success) && GuardIdle(cfg, Token(success), fed)
    requires Woven(turns, EventStream.StreamEvents(cfg, fed), pos, luck)
    requires forall k :: 0 <= k < last && k < |turns| ==> !turns[k].event.Signature?
    ensures last < |turns| && !turns[last].event.Panic?
  {
    hide EventStream.StreamEvents, EventStream.Shown, Woven;
    InsideIsShown(cfg, Token(success), fed);
    var e := SignatureInStream(cfg, success, fed);
    EventStream.PanicEndsStream(cfg, fed);
    var events := EventStream.StreamEvents(cfg, fed);
    assert forall i :: 0 <= i < |events| - 1 ==> events[i] == events[..|events| - 1][i];
    NotAtEnd(events, turns, pos, luck, last, e);
  }

  /** Without a shell prompt nothing is written. */
  lemma NoShellNoWrite(cfg: EventStream.Config, success: string, fed: seq<string>, turns: seq<Turn>, pos: seq<nat>,
                       luck: nat -> Luck, writes: seq<Write>)
    requires cfg == StreamConfig(cfg.panics, success) && !ShellShown(cfg, fed)
    requires Woven(turns, EventStream.StreamEvents(cfg, fed), pos, luck)
    requires FollowsPlan(writes) && Caused(turns, writes)
    ensures writes == []
  {
    hide EventStream.StreamEvents, EventStream.Shown, Woven, Echo, MediaFound;
    if writes != [] {
      var events := EventStream.StreamEvents(cfg, fed);
      assert turns[writes[0].turn].event.Shell?;
      var i := EventOf(turns, events, pos, luck, writes[0].turn);
      TurnHasPrompt(cfg, success, fed, events[i]);
    }
  }

  /** A trusted token or the generic one is shown before any panic. */
  predicate SuccessShown(cfg: EventStream.Config, success: string, fed: seq<string>) {
    SignatureShown(cfg, fed) || EventStream.Shown(cfg, fed, Token(success))
  }

  lemma SuccessWasShown(cfg: EventStream.Config, success: string, fed: seq<string>, turns: seq<Turn>, pos: seq<nat>,
                        luck: nat -> Luck, last: nat)
    requires cfg == StreamConfig(cfg.panics, success) && Woven(turns, EventStream.StreamEvents(cfg, fed), pos, luck)
    requires last < |turns| && (turns[last].event.Signature? || turns[last].event.GenericPrompt?)
    ensures SuccessShown(cfg, success, fed)
  {
    hide EventStream.StreamEvents, EventStream.Shown, Woven;
    var events := EventStream.StreamEvents(cfg, fed);
    var i := EventOf(turns, events, pos, luck, last);
    TurnHasPrompt(cfg, success, fed, events[i]);
    if turns[last].event.GenericPrompt? {
      PromptsAreDistinct(success);
      EventStream.PromptInStream(cfg, fed, GENERIC);
      assert events[i] == EventStream.PromptDetected(cfg.prompts[GENERIC].ptype);
    }
  }

  /** A console on which a panic comes before any success token never ends in success. */
  method PanicNeverSucceeds(panics: seq<string>, success: string, before: seq<string>, chunk: string, after: seq<string>,
                            idle: nat -> nat, luck: nat -> Luck, start: real) returns (outcome: Outcome)
    requires EventStream.PanicHit(StreamConfig(panics, success), before + [chunk])
    requires !SuccessShown(StreamConfig(panics, success), success, before)
    ensures !outcome.Success?
  {
    hide SuccessShown;
    var turns, writes, last, fsmEnergized;
    ghost var pos;
    var fed := before + [chunk] + after;
    turns, pos, outcome, writes, last, fsmEnergized := Install(panics, success, fed, idle, luck, start, false);
    NothingShownLater(StreamConfig(panics, success), success, before, chunk, after);
  }

  lemma NothingShownLater(cfg: EventStream.Config, success: string, before: seq<string>, chunk: string, after: seq<string>)
    requires EventStream.PanicHit(cfg, before + [chunk]) && !SuccessShown(cfg, success, before)
    ensures !SuccessShown(cfg, success, before + [chunk] + after)
  {
    hide EventStream.Shown, EventStream.PanicHit;
    forall k | 0 <= k < |SIGNATURES| ensures !EventStream.Shown(cfg, before + [chunk] + after, SIGNATURES[k]) {
      NotShownBehind(cfg, before, chunk, after, SIGNATURES[k]);
    }
    NotShownBehind(cfg, before, chunk, after, Token(success));
  }

  /** Behind a panic nothing is shown any more. */
  lemma NotShownBehind(cfg: EventStream.Config, before: seq<string>, chunk: string, after: seq<string>, tok: string)
    requires EventStream.PanicHit(cfg, before + [chunk]) && !EventStream.Shown(cfg, before, tok)
    ensures !EventStream.Shown(cfg, before + [chunk] + after, tok)
  {
    var fed := before + [chunk] + after;
    forall k | 0 < k <= |fed| && !EventStream.PanicHit(cfg, fed[..k]) ensures !EventStream.Hit(fed[..k], tok) {
      if k <= |before| {
        assert fed[..k] == before[..k];
      } else {
        assert fed[..k][..|before| + 1] == before + [chunk];
        PanicRemains(cfg, fed[..k], |before| + 1);
      }
    }
  }

  lemma PanicRemains(cfg: EventStream.Config, fed: seq<string>, n: nat)
    requires n <= |fed| && EventStream.PanicHit(cfg, fed[..n])
    ensures EventStream.PanicHit(cfg, fed)
  {
    var i :| 0 <= i < |cfg.panics| && EventStream.Hit(fed[..n], cfg.panics[i]);
    EventStream.HitStays(fed, cfg.panics[i], n);
  }

  /** Idle ticks for a while. */
  method Idle(turns: seq<Turn>, ticks: nat, luck: nat -> Luck) returns (longer: seq<Turn>)
    ensures |longer| == |turns| + ticks && turns <= longer
    ensures forall k :: |turns| <= k < |longer| ==> longer[k] == TurnOf(Other, luck(k))
  {
    longer := turns;
    for i := 0 to ticks
      invariant |longer| == |turns| + i && turns <= longer
      invariant forall k :: |turns| <= k < |longer| ==> longer[k] == TurnOf(Other, luck(k))
    {
      longer := longer + [TurnOf(Other, luck(|longer|))];
    }
  }

  lemma WovenIdle(turns: seq<Turn>, longer: seq<Turn>, events: seq<EventStream.Event>, pos: seq<nat>, luck: nat -> Luck)
    requires Woven(turns, events, pos, luck) && turns <= longer
    requires forall k :: |turns| <= k < |longer| ==> longer[k] == TurnOf(Other, luck(k))
    ensures Woven(longer, events, pos, luck)
  {
    assert forall k :: 0 <= k < |turns| ==> longer[k] == turns[k];
  }

  lemma WovenEvent(turns: seq<Turn>, events: seq<EventStream.Event>, e: EventStream.Event, pos: seq<nat>,
                   luck: nat -> Luck)
    requires Woven(turns, events, pos, luck)
    ensures Woven(turns + [TurnOf(Classify(e), luck(|turns|))], events + [e], pos + [|turns|], luck)
  {
    hide Classify;
    assert forall k :: k in pos ==> k in pos + [|turns|];
  }

  /** `idle(i)` ticks in front of event number `i`, the last ones behind all events. */
  method MakeTurns(events: seq<EventStream.Event>, idle: nat -> nat, luck: nat -> Luck)
      returns (turns: seq<Turn>, ghost pos: seq<nat>)
    ensures Woven(turns, events, pos, luck)
  {
    turns, pos := [], [];
    assert events[..0] == [];
    for i := 0 to |events|
      invariant Woven(turns, events[..i], pos, luck)
    {
      hide Woven, Classify;
      var longer := Idle(turns, idle(i), luck);
      WovenIdle(turns, longer, events[..i], pos, luck);
      WovenEvent(longer, events[..i], events[i], pos, luck);
      assert events[..i + 1] == events[..i] + [events[i]];
      pos := pos + [|longer|];
      turns := longer + [TurnOf(Classify(events[i]), luck(|longer|))];
    }
    assert events[..|events|] == events;
    var longer := Idle(turns, idle(|events|), luck);
    WovenIdle(turns, longer, events, pos, luck);
    turns := longer;
  }

  /**
   The installer on a console: the event stream and its idle ticks feed the loop. If the generic token contains a
   trusted one, a console that shows it never ends in plain failure; and if no shell shows up either, it is success
   without a single write.
   */
  method Install(panics: seq<string>, success: string, chunks: seq<string>, idle: nat -> nat, luck: nat -> Luck,
                 start: real, fsm: bool)
      returns (turns: seq<Turn>, ghost pos: seq<nat>, outcome: Outcome, writes: seq<Write>, last: nat, fsmEnergized: bool)
    ensures Woven(turns, EventStream.StreamEvents(StreamConfig(panics, success), chunks), pos, luck)
    ensures Ends(turns, start, last, outcome) && writes == Attempts(turns, start, last)
    ensures fsmEnergized <==> fsm && outcome.Success?
    ensures !ShellShown(StreamConfig(panics, success), chunks) ==> writes == [] && !outcome.Raised?
    ensures GuardIdle(StreamConfig(panics, success), Token(success), chunks) ==> !outcome.Failure?
    ensures outcome.Success? ==> SuccessShown(StreamConfig(panics, success), success, chunks)
  {
    hide Woven, GuardIdle, ShellShown, SuccessShown;
    var cfg := StreamConfig(panics, success);
    PromptsAreDistinct(success);
    var events := EventStream.Consume(cfg, chunks);
    turns, pos := MakeTurns(events, idle, luck);
    outcome, writes, last, fsmEnergized := Provision(turns, start, fsm);
    if !ShellShown(cfg, chunks) {
      AttemptsFollowPlan(turns, start, last);
      NoShellNoWrite(cfg, success, chunks, turns, pos, luck, writes);
    }
    if outcome.Success? {
      SuccessWasShown(cfg, success, chunks, turns, pos, luck, last);
    }
    if GuardIdle(cfg, Token(success), chunks) {
      NoPlainFailure(cfg, success, chunks, turns, pos, luck, last);
    }
  }

  lemma LoginShowsNoShell(panics: seq<string>, fed: seq<string>)
    requires fed == [LOGIN] && !AnyOccurs(LOGIN, panics)
    requires EventStream.LineBoundPanics(StreamConfig(panics, ""))
    ensures var cfg := StreamConfig(panics, ""); EventStream.Shown(cfg, fed, LOGIN) && !ShellShown(cfg, fed)
  {
    var cfg := StreamConfig(panics, "");
    LoginIsShown(cfg, fed);
    forall k | 0 <= k < |SHELL_PROMPTS| ensures !EventStream.Shown(cfg, fed, SHELL_PROMPTS[k].token) {
      SignaturesAreLineBound();
      hide EventStream.Shown;
      NotInLogin(SHELL_PROMPTS[k].token, if k == 1 then 4 else 2 - k % 2);
      NotShownAlone(cfg, fed, SHELL_PROMPTS[k].token);
    }
  }

  lemma LoginIsShown(cfg: EventStream.Config, fed: seq<string>)
    requires fed == [LOGIN] && !AnyOccurs(LOGIN, cfg.panics) && EventStream.LineBoundPanics(cfg)
    ensures EventStream.Shown(cfg, fed, LOGIN)
  {
    assert OccursAt(LOGIN, LOGIN, 0) && fed[..0] == [] && fed[..1] == fed && Flat(fed) == "" + LOGIN == LOGIN;
    SignaturesAreLineBound();
    AloneShows(LOGIN, fed, LOGIN);
    EventStream.PanicIsSeen(cfg, fed);
  }

  lemma NotShownAlone(cfg: EventStream.Config, fed: seq<string>, tok: string)
    requires fed == [LOGIN] && LineBound(CR_OR_LF, tok) && !Occurs(LOGIN, tok)
    ensures !EventStream.Shown(cfg, fed, tok)
  {
    hide EventStream.Shown, EventStream.Hit;
    AloneShows(LOGIN, fed, tok);
    if EventStream.Shown(cfg, fed, tok) {
      EventStream.ShownIsHit(cfg, fed, tok);
    }
  }

  lemma NotInLogin(tok: string, j: nat)
    requires j < |tok| && tok[j] !in LOGIN
    ensures !Occurs(LOGIN, tok)
  {
    forall i ensures !OccursAt(LOGIN, tok, i) {
      if 0 <= i && i + |tok| <= |LOGIN| {
        OccursAtByElement(LOGIN, tok, i);
        assert LOGIN[i + j] in LOGIN;
      }
    }
  }

  /** At the default success prompt a bare login prompt is success, with nothing written and nothing tailed. */
  method DefaultNeedsNoTail(panics: seq<string>, idle: nat -> nat, luck: nat -> Luck, start: real)
      returns (outcome: Outcome, writes: seq<Write>)
    requires !AnyOccurs(LOGIN, panics) && EventStream.LineBoundPanics(StreamConfig(panics, ""))
    ensures outcome.Success? && writes == []
  {
    var turns, last, fsmEnergized;
    LoginShowsNoShell(panics, [LOGIN]);
    DefaultContainsSignature();
    SignaturesAreLineBound();
    ghost var pos;
    turns, pos, outcome, writes, last, fsmEnergized := Install(panics, "", [LOGIN], idle, luck, start, false);
  }

  /** A token that is line-bound closes one line at most. */
  lemma OneLineAtMost(t: string)
    requires LineBound(CR_OR_LF, t)
    ensures |Clean(Complete(CR_OR_LF, t))| <= 1
  {
    if t != "" {
      FreeIsOpen(CR_OR_LF, t[..|t| - 1]);
      GatherSnoc(CleanOne, [], Open(CR_OR_LF, t[..|t| - 1]));
    }
  }

  lemma {:induction false} LinesAlone(earlier: seq<string>, lines: seq<string>)
    ensures |EventStream.LineEvents([], earlier, lines)| == |lines|
  {
    if lines != [] {
      LinesAlone(earlier, lines[..|lines| - 1]);
    }
  }

  /** In the events of a chunk that closes one line at most, the line comes last. */
  lemma LineComesLast(cfg: EventStream.Config, t: string, fed: seq<string>, i: nat)
    requires fed == [t] && cfg.autoboot == "" && cfg.milestones == [] && LineBound(CR_OR_LF, t)
    requires i < |EventStream.StreamEvents(cfg, fed)| && EventStream.StreamEvents(cfg, fed)[i].BootData?
    ensures i == |EventStream.StreamEvents(cfg, fed)| - 1
  {
    hide EventStream.LineEvents, EventStream.PromptFilter, Clean, Complete, Gather;
    var events := EventStream.StreamEvents(cfg, fed);
    assert fed[..0] == [] && [] + [t] == fed && !EventStream.PanicHit(cfg, []);
    EventStream.StreamSnoc(cfg, [], t);
    assert events == EventStream.ChunkEvents(cfg, [], t);
    if !EventStream.PanicHit(cfg, fed) {
      var prompts := Gather(EventStream.PromptFilter([], t), cfg.prompts);
      assert EventStream.Window([], t) == "" + t == t;
      var closed := Clean(Complete(CR_OR_LF, t));
      var lines := EventStream.LineEvents([], EventStream.Lines([]), closed);
      assert events == [] + prompts + lines;
      OnlyPrompts([], t, cfg.prompts);
      OneLineAtMost(t);
      LinesAlone(EventStream.Lines([]), closed);
    }
  }

  lemma {:induction false} OnlyPrompts(fed: seq<string>, c: string, ps: seq<EventStream.Prompt>)
    ensures forall k :: 0 <= k < |Gather(EventStream.PromptFilter(fed, c), ps)| ==>
              Gather(EventStream.PromptFilter(fed, c), ps)[k].PromptDetected?
  {
    if ps != [] {
      OnlyPrompts(fed, c, ps[..|ps| - 1]);
    }
  }

  /**
   A generic token without a trusted one inside is held back when it comes alone, in good time and with good writes,
   and the flash is reported as failed.
   */
  method GuardHoldsBack(panics: seq<string>, success: string, idle: nat -> nat) returns (outcome: Outcome)
    requires LineBound(CR_OR_LF, Token(success)) && !AnyOccurs(Token(success), SIGNATURES)
    ensures outcome.Failure?
  {
    var t, cfg := Token(success), StreamConfig(panics, success);
    ghost var fed := [t];
    ghost var pos;
    var turns, writes, last, fsmEnergized;
    turns, pos, outcome, writes, last, fsmEnergized := Install(panics, success, [t], idle, _ => IN_TIME, 0.0, false);
    HeldBack(cfg, success, t, fed, turns, pos, outcome, last);
  }

  lemma HeldBack(cfg: EventStream.Config, success: string, t: string, fed: seq<string>, turns: seq<Turn>,
                 pos: seq<nat>, outcome: Outcome, last: nat)
    requires cfg == StreamConfig(cfg.panics, success) && t == Token(success) && fed == [t] && !AnyOccurs(t, SIGNATURES)
    requires LineBound(CR_OR_LF, t) && Woven(turns, EventStream.StreamEvents(cfg, fed), pos, _ => IN_TIME)
    requires Ends(turns, 0.0, last, outcome)
    ensures outcome.Failure?
  {
    hide EventStream.StreamEvents, Woven, Attempts, RxOnly, AnyOccurs, LineBound;
    if last < |turns| {
      var events, writes := EventStream.StreamEvents(cfg, fed), Attempts(turns, 0.0, last);
      AttemptsFollowPlan(turns, 0.0, last);
      OneDataAlone(cfg, t, fed, turns, pos, writes, last);
      InTime(turns, events, pos, writes, last);
      if turns[last].event.Signature? {
        var i := EventOf(turns, events, pos, _ => IN_TIME, last);
        NoSignatureAlone(cfg, success, t, fed, events[i]);
      }
    }
  }

  lemma NoSignatureAlone(cfg: EventStream.Config, success: string, t: string, fed: seq<string>, e: EventStream.Event)
    requires cfg == StreamConfig(cfg.panics, success) && fed == [t] && !AnyOccurs(t, SIGNATURES)
    requires e in EventStream.StreamEvents(cfg, fed)
    ensures !Classify(e).Signature?
  {
    hide EventStream.StreamEvents, EventStream.Shown, EventStream.Hit;
    TurnHasPrompt(cfg, success, fed, e);
    if SignatureShown(cfg, fed) {
      var k :| 0 <= k < |SIGNATURES| && EventStream.Shown(cfg, fed, SIGNATURES[k]);
      EventStream.ShownIsHit(cfg, fed, SIGNATURES[k]);
      SignaturesAreLineBound();
      AloneShows(t, fed, SIGNATURES[k]);
    }
  }

  /** One line is not enough for echo and media verdict. */
  lemma OneDataAlone(cfg: EventStream.Config, t: string, fed: seq<string>, turns: seq<Turn>, pos: seq<nat>,
                     writes: seq<Write>, last: nat)
    requires fed == [t] && cfg.autoboot == "" && cfg.milestones == [] && LineBound(CR_OR_LF, t)
    requires Woven(turns, EventStream.StreamEvents(cfg, fed), pos, _ => IN_TIME)
    requires last < |turns| && WritesInv(writes, last) && Caused(turns, writes)
    ensures |writes| <= 2 && (|writes| == 2 ==> !turns[last].event.Data?)
  {
    hide EventStream.StreamEvents, Woven, LineBound, Occurs, Strip;
    if |writes| >= 2 {
      var first, second := writes[1].turn, if |writes| == 2 then last else writes[2].turn;
      if turns[second].event.Data? {
        var events := EventStream.StreamEvents(cfg, fed);
        var i := EventOf(turns, events, pos, _ => IN_TIME, first);
        var j := EventOf(turns, events, pos, _ => IN_TIME, second);
        LineComesLast(cfg, t, fed, i);
        LineComesLast(cfg, t, fed, j);
      }
    }
  }

  /** With all clocks at zero and all writes good nothing is ever late. */
  lemma InTime(turns: seq<Turn>, events: seq<EventStream.Event>, pos: seq<nat>, writes: seq<Write>, last: nat)
    requires Woven(turns, events, pos, _ => IN_TIME)
    requires last < |turns| && WritesInv(writes, last) && Caused(turns, writes)
    ensures !RxOnly(turns, last + 1, 0.0, writes)
    ensures AwaitsMedia(writes) ==> turns[last].t2 <= writes[1].time + MEDIA_PATIENCE
  {
    hide CallsFor;
    assert forall k :: 0 <= k < |turns| ==> turns[k] == TurnOf(turns[k].event, IN_TIME);
  }
}
