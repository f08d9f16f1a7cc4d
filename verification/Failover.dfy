/**
 `FailoverTransport` as interleaved atomic steps: one caller thread (`safe_run`, `connect`, `disconnect`),
 the background recovery probe, the watchdog's panic callback, and links that come and go.
 */
module Failover {
  import opened Sequences

  datatype Link = Primary | Fallback

  datatype Event =
    | Issued(call: nat, autoRetry: bool, via: Link)
    | FailedOver
    | PingOk
    | ConnectOk

  /** Where the caller thread stands between two accesses to shared state. */
  datatype Caller =
    | Idle
    | Called(autoRetry: bool)
    | ToPrimary(autoRetry: bool)
    | ToFallback(autoRetry: bool)
    | Severed(autoRetry: bool)
    | Waking(autoRetry: bool)
    | Woken(autoRetry: bool)
    | Arming
    | FallbackArmed
    | PrimaryArmed
    | PrimaryRefused
    | Starting
    | Closing

  /** The recovery thread: not running, waiting, in the middle of a ping, or about to take the flag back. */
  datatype Probe = Dead | Sleeping | Probing | Clearing

  datatype State = State(
    failedOver: bool, primaryUp: bool, fallbackUp: bool, caller: Caller, probe: Probe, stop: bool, calls: nat,
    log: seq<Event>)

  const INITIAL := State(false, false, false, Idle, Dead, false, 0, [])

  datatype Outcome = Returns | Raises | ConnectionLost

  datatype Step =
    | StartCall(autoRetry: bool)
    | ReadFlag
    | IssuePrimary(outcome: Outcome)
    | IssueFallback
    | SetFlag
    | Wake(ok: bool)
    | AfterWake
    | StartConnect
    | ConnectFallback(ok: bool)
    | ConnectPrimary(outcome: Outcome)
    | ClearAfterConnect
    | SetAfterRefusal
    | StartProbe
    | Disconnect
    | CloseLinks
    | ProbeCheck
    | ProbeExit
    | ProbePing(ok: bool)
    | ProbeClear
    | PanicCallback
    | LinkLost(link: Link)

  predicate Enabled(s: State, a: Step) {
    match a
    case StartCall(_) => s.caller.Idle?
    case ReadFlag => s.caller.Called?
    case IssuePrimary(_) => s.caller.ToPrimary?
    case IssueFallback => s.caller.ToFallback?
    case SetFlag => s.caller.Severed?
    case Wake(_) => s.caller.Waking?
    case AfterWake => s.caller.Woken?
    case StartConnect => s.caller.Idle?
    case ConnectFallback(_) => s.caller.Arming?
    case ConnectPrimary(_) => s.caller.FallbackArmed?
    case ClearAfterConnect => s.caller.PrimaryArmed?
    case SetAfterRefusal => s.caller.PrimaryRefused?
    case StartProbe => s.caller.Starting?
    case Disconnect => s.caller.Idle?
    case CloseLinks => s.caller.Closing?
    case ProbeCheck => s.probe.Sleeping? && !s.stop
    case ProbeExit => s.probe.Sleeping? && s.stop
    case ProbePing(_) => s.probe.Probing?
    case ProbeClear => s.probe.Clearing?
    case PanicCallback => true
    case LinkLost(_) => true
  }

  /** Setting the flag; only a change from false to true is a failover. */
  function Raise(s: State): State {
    s.(failedOver := true, log := if s.failedOver then s.log else s.log + [FailedOver])
  }

  function Next(s: State, a: Step): State
    requires Enabled(s, a)
  {
    match a
    case StartCall(r) => s.(caller := Called(r), calls := s.calls + 1)
    case ReadFlag =>
      s.(caller := if s.failedOver then ToFallback(s.caller.autoRetry) else ToPrimary(s.caller.autoRetry))
    case IssuePrimary(o) =>
      s.(log := s.log + [Issued(s.calls, s.caller.autoRetry, Primary)],
         caller := if o.ConnectionLost? then Severed(s.caller.autoRetry) else Idle)
    case IssueFallback => s.(log := s.log + [Issued(s.calls, s.caller.autoRetry, Fallback)], caller := Idle)
    case SetFlag => Raise(s).(caller := Waking(s.caller.autoRetry))
    case Wake(ok) => s.(caller := if ok then Woken(s.caller.autoRetry) else Idle)
    case AfterWake => s.(caller := if s.caller.autoRetry then ToFallback(true) else Idle)
    case StartConnect => s.(caller := if (if s.failedOver then s.fallbackUp else s.primaryUp) then Idle else Arming)
    case ConnectFallback(ok) =>
      if ok then s.(fallbackUp := true, caller := FallbackArmed) else s.(caller := Idle)
    case ConnectPrimary(o) =>
      (match o
       case Returns => s.(primaryUp := true, log := s.log + [ConnectOk], caller := PrimaryArmed)
       case Raises => s.(caller := Idle)
       case ConnectionLost => s.(caller := PrimaryRefused))
    case ClearAfterConnect => s.(failedOver := false, caller := Starting)
    case SetAfterRefusal => Raise(s).(caller := Starting)
    case StartProbe => (if s.probe.Dead? then s.(probe := Sleeping, stop := false) else s).(caller := Idle)
    case Disconnect => s.(stop := true, caller := Closing)
    case CloseLinks => s.(primaryUp := false, fallbackUp := false, caller := Idle)
    case ProbeCheck => s.(probe := if s.failedOver then Probing else Sleeping)
    case ProbeExit => s.(probe := Dead)
    case ProbePing(ok) =>
      if ok then s.(primaryUp := true, log := s.log + [PingOk], probe := Clearing) else s.(probe := Sleeping)
    case ProbeClear => s.(failedOver := false, probe := Sleeping)
    case PanicCallback => s.(primaryUp := false)
    case LinkLost(l) => if l.Primary? then s.(primaryUp := false) else s.(fallbackUp := false)
  }

  /** Every interleaving: the state after `steps`, if each was enabled when it was taken. */
  function Exec(steps: seq<Step>): Option<State> {
    if steps == [] then Some(INITIAL)
    else
      var before := Exec(steps[..|steps| - 1]);
      if before.Some? && Enabled(before.value, steps[|steps| - 1])
      then Some(Next(before.value, steps[|steps| - 1]))
      else None
  }

  lemma ExecSnoc(steps: seq<Step>, s: State, a: Step)
    requires Exec(steps) == Some(s) && Enabled(s, a)
    ensures Exec(steps + [a]) == Some(Next(s, a))
  {
    assert (steps + [a])[..|steps|] == steps;
  }

  // ---------------------------------------------------------------- commands are not duplicated

  function Sent(log: seq<Event>, call: nat, via: Link): nat {
    if log == [] then 0
    else
      var e := log[|log| - 1];
      Sent(log[..|log| - 1], call, via) + (if e.Issued? && e.call == call && e.via == via then 1 else 0)
  }

  /** Some command of this call was issued with `auto_retry`. */
  predicate Retryable(log: seq<Event>, call: nat) {
    exists i :: 0 <= i < |log| && log[i].Issued? && log[i].call == call && log[i].autoRetry
  }

  lemma SentSnoc(log: seq<Event>, e: Event, call: nat, via: Link)
    ensures Sent(log + [e], call, via) ==
            Sent(log, call, via) + (if e.Issued? && e.call == call && e.via == via then 1 else 0)
    ensures Retryable(log + [e], call) <==> Retryable(log, call) || (e.Issued? && e.call == call && e.autoRetry)
  {
    assert (log + [e])[..|log|] == log;
    if Retryable(log, call) {
      var i :| 0 <= i < |log| && log[i].Issued? && log[i].call == call && log[i].autoRetry;
      assert (log + [e])[i] == log[i];
    }
    if e.Issued? && e.call == call && e.autoRetry {
      assert (log + [e])[|log|] == e;
    }
  }

  /** At most once per link; on both links only with `auto_retry`. */
  predicate AtMostOnce(log: seq<Event>, call: nat) {
    && Sent(log, call, Primary) <= 1 && Sent(log, call, Fallback) <= 1
    && (Sent(log, call, Primary) + Sent(log, call, Fallback) == 2 ==> Retryable(log, call))
  }

  /** What the current call may already have sent, by where it stands. */
  predicate CallerInv(s: State) {
    var p, f := Sent(s.log, s.calls, Primary), Sent(s.log, s.calls, Fallback);
    match s.caller
    case Called(_) => p == 0 && f == 0
    case ToPrimary(_) => p == 0 && f == 0
    case ToFallback(r) => f == 0 && (p == 0 || (p == 1 && r))
    case Severed(r) => p == 1 && f == 0
    case Waking(r) => p == 1 && f == 0
    case Woken(r) => p == 1 && f == 0
    case _ => true
  }

  ghost predicate CallsInv(s: State) {
    && CallerInv(s)
    && (forall c: nat :: AtMostOnce(s.log, c))
    && (forall c: nat :: c > s.calls ==> Sent(s.log, c, Primary) == 0 && Sent(s.log, c, Fallback) == 0)
  }

  lemma SilentKeeps(log: seq<Event>, e: Event)
    requires !e.Issued? && forall c: nat :: AtMostOnce(log, c)
    ensures forall c: nat, via: Link :: Sent(log + [e], c, via) == Sent(log, c, via)
    ensures forall c: nat :: AtMostOnce(log + [e], c)
  {
    forall c: nat, via: Link
      ensures Sent(log + [e], c, via) == Sent(log, c, via)
      ensures Retryable(log + [e], c) <==> Retryable(log, c)
    {
      SentSnoc(log, e, c, via);
    }
    forall c: nat ensures AtMostOnce(log + [e], c) {
      assert AtMostOnce(log, c);
      SentSnoc(log, e, c, Primary);
      SentSnoc(log, e, c, Fallback);
    }
  }

  lemma IssueKeeps(log: seq<Event>, call: nat, r: bool, via: Link)
    requires forall c: nat :: AtMostOnce(log, c)
    requires Sent(log, call, via) == 0
    requires var other := if via.Primary? then Fallback else Primary; Sent(log, call, other) == 1 ==> r
    ensures forall c: nat :: AtMostOnce(log + [Issued(call, r, via)], c)
    ensures forall c: nat, v: Link :: c != call || v != via ==> Sent(log + [Issued(call, r, via)], c, v) == Sent(log, c, v)
    ensures Sent(log + [Issued(call, r, via)], call, via) == 1
  {
    var e := Issued(call, r, via);
    forall c: nat, v: Link
      ensures Sent(log + [e], c, v) == Sent(log, c, v) + (if c == call && v == via then 1 else 0)
    {
      SentSnoc(log, e, c, v);
    }
    forall c: nat ensures AtMostOnce(log + [e], c) {
      assert AtMostOnce(log, c);
      SentSnoc(log, e, c, Primary);
      SentSnoc(log, e, c, Fallback);
    }
  }

  predicate CallStep(a: Step) {
    a.StartCall? || a.ReadFlag? || a.IssuePrimary? || a.IssueFallback? || a.SetFlag? || a.Wake? || a.AfterWake?
  }

  lemma CallsStepCaller(s: State, a: Step)
    requires CallsInv(s) && Enabled(s, a) && CallStep(a)
    ensures CallsInv(Next(s, a))
  {
    if a.IssuePrimary? {
      IssueKeeps(s.log, s.calls, s.caller.autoRetry, Primary);
    } else if a.IssueFallback? {
      IssueKeeps(s.log, s.calls, s.caller.autoRetry, Fallback);
    } else if a.SetFlag? {
      SilentKeeps(s.log, FailedOver);
    }
  }

  predicate InCall(c: Caller) {
    c.Called? || c.ToPrimary? || c.ToFallback? || c.Severed? || c.Waking? || c.Woken?
  }

  /** All other steps leave the call where it is and issue nothing. */
  lemma OtherStep(s: State, a: Step)
    requires Enabled(s, a) && !CallStep(a)
    ensures Next(s, a).calls == s.calls && (Next(s, a).caller == s.caller || !InCall(Next(s, a).caller))
    ensures var log := Next(s, a).log;
            log == s.log || log == s.log + [FailedOver] || log == s.log + [PingOk] || log == s.log + [ConnectOk]
  {
    if !a.ConnectPrimary? && !a.ProbePing? && !a.SetAfterRefusal? {
      assert Next(s, a).log == s.log;
    }
  }

  lemma CallsStep(s: State, a: Step)
    requires CallsInv(s) && Enabled(s, a)
    ensures CallsInv(Next(s, a))
  {
    hide AtMostOnce, Sent, Next;
    if CallStep(a) {
      CallsStepCaller(s, a);
    } else {
      OtherStep(s, a);
      var t := Next(s, a);
      if t.log != s.log {
        SilentKeeps(s.log, t.log[|s.log|]);
      }
    }
  }

  /** In every interleaving: a command goes out at most once per link, and on both links only when retryable. */
  lemma {:induction false} CommandsNotDuplicated(steps: seq<Step>)
    requires Exec(steps).Some?
    ensures CallsInv(Exec(steps).value)
    decreases |steps|
  {
    if steps != [] {
      CommandsNotDuplicated(steps[..|steps| - 1]);
      CallsStep(Exec(steps[..|steps| - 1]).value, steps[|steps| - 1]);
    }
  }

  // ---------------------------------------------------------------- only a lost connection fails over

  predicate Loses(a: Step) {
    a == IssuePrimary(ConnectionLost) || a == ConnectPrimary(ConnectionLost)
  }

  predicate Lost(steps: seq<Step>) {
    exists i :: 0 <= i < |steps| && Loses(steps[i])
  }

  /** A failover has happened or is about to. */
  predicate FailingOver(s: State) {
    FailedOver in s.log || s.failedOver || s.caller.Severed? || s.caller.PrimaryRefused?
  }

  lemma LossStep(s: State, a: Step)
    requires Enabled(s, a) && !FailingOver(s) && !Loses(a)
    ensures !FailingOver(Next(s, a))
  {
  }

  /** In every interleaving a failover was preceded by the loss of the primary during a command or a connect. */
  lemma {:induction false} FailoverNeedsLoss(steps: seq<Step>)
    requires Exec(steps).Some? && !Lost(steps)
    ensures !FailingOver(Exec(steps).value)
    decreases |steps|
  {
    hide FailingOver, Loses;
    if steps == [] {
      NoFailureYet();
    } else {
      var init, a := steps[..|steps| - 1], steps[|steps| - 1];
      assert forall i :: 0 <= i < |init| ==> init[i] == steps[i];
      FailoverNeedsLoss(init);
      LossStep(Exec(init).value, a);
    }
  }

  lemma NoFailureYet()
    ensures !FailingOver(INITIAL)
  {
  }

  // ---------------------------------------------------------------- a retryable command is not lost

  /** A retryable command was lost with the primary and is on its way to the fallback. */
  predicate Retrying(s: State) {
    match s.caller
    case Severed(r) => r
    case Waking(r) => r
    case Woken(r) => r
    case ToFallback(r) => r
    case _ => false
  }

  /**
   Whatever the other threads do, it stays on its way until it is issued on the fallback; only a wake-up call that fails
   ends it otherwise.
   */
  lemma RetryArrives(s: State, a: Step)
    requires Retrying(s) && Enabled(s, a)
    ensures var t := Next(s, a);
            || (Retrying(t) && t.calls == s.calls)
            || a == Wake(false)
            || (a == IssueFallback && t.log == s.log + [Issued(s.calls, true, Fallback)])
  {
  }

  /** The rest of a call that lost the primary, with a good wake-up: the flag goes up, and a retryable command is issued. */
  lemma RetryOnFallback(steps: seq<Step>, s: State) returns (more: seq<Step>, t: State)
    requires Exec(steps) == Some(s) && s.caller.Severed?
    ensures Exec(more) == Some(t) && steps < more && t.caller.Idle? && t.failedOver && t.calls == s.calls
    ensures t.log == s.log + (if s.failedOver then [] else [FailedOver])
                     + if s.caller.autoRetry then [Issued(s.calls, true, Fallback)] else []
  {
    hide Exec;
    ExecSnoc(steps, s, SetFlag);
    more, t := steps + [SetFlag], Next(s, SetFlag);
    ExecSnoc(more, t, Wake(true));
    more, t := more + [Wake(true)], Next(t, Wake(true));
    ExecSnoc(more, t, AfterWake);
    more, t := more + [AfterWake], Next(t, AfterWake);
    if s.caller.autoRetry {
      ExecSnoc(more, t, IssueFallback);
      more, t := more + [IssueFallback], Next(t, IssueFallback);
    }
  }

  /** A panic severs the primary: without a failover the next `connect` re-arms both links. */
  lemma PanicSevers(steps: seq<Step>, s: State) returns (more: seq<Step>, t: State)
    requires Exec(steps) == Some(s) && s.caller.Idle? && !s.failedOver
    ensures Exec(more) == Some(t) && steps < more && t == s.(primaryUp := false, caller := Arming)
  {
    hide Exec;
    ExecSnoc(steps, s, PanicCallback);
    more, t := steps + [PanicCallback], Next(s, PanicCallback);
    ExecSnoc(more, t, StartConnect);
    more, t := more + [StartConnect], Next(t, StartConnect);
  }

  /** A call that finds the flag up goes to the fallback alone. */
  lemma CallOnFallback(steps: seq<Step>, s: State, r: bool) returns (more: seq<Step>, t: State)
    requires Exec(steps) == Some(s) && s.caller.Idle? && s.failedOver
    ensures Exec(more) == Some(t) && steps < more
    ensures t == s.(calls := s.calls + 1, log := s.log + [Issued(s.calls + 1, r, Fallback)])
  {
    hide Exec;
    ExecSnoc(steps, s, StartCall(r));
    more, t := steps + [StartCall(r)], s.(calls := s.calls + 1, caller := Called(r));
    ExecSnoc(more, t, ReadFlag);
    more, t := more + [ReadFlag], t.(caller := ToFallback(r));
    ExecSnoc(more, t, IssueFallback);
    more, t := more + [IssueFallback], Next(t, IssueFallback);
  }

  // ---------------------------------------------------------------- after a failover the primary must prove itself

  /** No failover yet, or a ping or a connect has succeeded since the last one. */
  predicate Trusted(log: seq<Event>) {
    log == [] || match log[|log| - 1]
      case FailedOver => false
      case PingOk => true
      case ConnectOk => true
      case Issued(_, _, _) => Trusted(log[..|log| - 1])
  }

  /** Every user command on the primary found it trusted. */
  predicate Guarded(log: seq<Event>) {
    log == [] || (
      var init, e := log[..|log| - 1], log[|log| - 1];
      Guarded(init) && (e.Issued? && e.via.Primary? ==> Trusted(init)))
  }

  lemma GuardSnoc(log: seq<Event>, e: Event)
    ensures Trusted(log + [e]) <==> !e.FailedOver? && (e.Issued? ==> Trusted(log))
    ensures Guarded(log + [e]) <==> Guarded(log) && (e.Issued? && e.via.Primary? ==> Trusted(log))
  {
    assert (log + [e])[..|log|] == log;
  }

  /** The recovery thread is between reading the flag and writing it. */
  predicate MidCycle(p: Probe) {
    p.Probing? || p.Clearing?
  }

  /** `connect` takes the flag back only while the recovery probe is not in the middle of a cycle. */
  predicate Disciplined(s: State, a: Step) {
    a.ClearAfterConnect? ==> !MidCycle(s.probe)
  }

  predicate DisciplinedRun(steps: seq<Step>)
    requires Exec(steps).Some?
  {
    steps == [] || (
      var init, a := steps[..|steps| - 1], steps[|steps| - 1];
      DisciplinedRun(init) && Disciplined(Exec(init).value, a))
  }

  predicate GuardInv(s: State) {
    && Guarded(s.log)
    && (!s.failedOver ==> Trusted(s.log))
    && (MidCycle(s.probe) ==> s.failedOver)
    && (s.probe.Clearing? ==> Trusted(s.log))
    && (s.caller.ToPrimary? || s.caller.Severed? ==> !s.failedOver)
    && (s.caller.PrimaryArmed? ==> Trusted(s.log))
  }

  lemma GuardStep(s: State, a: Step)
    requires GuardInv(s) && Enabled(s, a) && Disciplined(s, a)
    ensures GuardInv(Next(s, a))
  {
    hide Guarded, Trusted;
    var t := Next(s, a);
    if CallStep(a) {
      if t.log != s.log {
        var e := t.log[|t.log| - 1];
        assert t.log == s.log + [e];
        GuardSnoc(s.log, e);
      }
    } else {
      OtherStep(s, a);
      GuardSnoc(s.log, FailedOver);
      GuardSnoc(s.log, PingOk);
      GuardSnoc(s.log, ConnectOk);
    }
  }

  /** After a failover no user command reaches the primary before a later ping or connect has succeeded. */
  lemma {:induction false} PrimaryOnlyWhenTrusted(steps: seq<Step>)
    requires Exec(steps).Some? && DisciplinedRun(steps)
    ensures Guarded(Exec(steps).value.log)
    ensures GuardInv(Exec(steps).value)
    decreases |steps|
  {
    if steps != [] {
      PrimaryOnlyWhenTrusted(steps[..|steps| - 1]);
      GuardStep(Exec(steps[..|steps| - 1]).value, steps[|steps| - 1]);
    }
  }

  /** One user call that finds the flag down: it goes to the primary. */
  lemma CallOnPrimary(steps: seq<Step>, s: State, o: Outcome) returns (more: seq<Step>, t: State)
    requires Exec(steps) == Some(s) && s.caller.Idle? && !s.failedOver
    ensures Exec(more) == Some(t) && steps < more
    ensures t == s.(calls := s.calls + 1, log := s.log + [Issued(s.calls + 1, false, Primary)],
                    caller := if o.ConnectionLost? then Severed(false) else Idle)
  {
    ExecSnoc(steps, s, StartCall(false));
    var s1 := s.(calls := s.calls + 1, caller := Called(false));
    ExecSnoc(steps + [StartCall(false)], s1, ReadFlag);
    var s2 := s1.(caller := ToPrimary(false));
    ExecSnoc(steps + [StartCall(false)] + [ReadFlag], s2, IssuePrimary(o));
    more, t := steps + [StartCall(false)] + [ReadFlag] + [IssuePrimary(o)], Next(s2, IssuePrimary(o));
  }

  /** The probe finishes its cycle on a ping that is older than the failover. */
  lemma StaleClear(steps: seq<Step>, s: State) returns (more: seq<Step>, t: State)
    requires Exec(steps) == Some(s) && s.caller.Severed? && !s.failedOver && s.probe.Clearing?
    ensures Exec(more) == Some(t) && steps < more
    ensures t.log == s.log + [FailedOver] && !t.failedOver && t.caller.Idle?
  {
    ExecSnoc(steps, s, SetFlag);
    var s1 := Next(s, SetFlag);
    ExecSnoc(steps + [SetFlag], s1, Wake(false));
    var s2 := s1.(caller := Idle);
    ExecSnoc(steps + [SetFlag] + [Wake(false)], s2, ProbeClear);
    more, t := steps + [SetFlag] + [Wake(false)] + [ProbeClear], Next(s2, ProbeClear);
  }

  /** The discipline is exactly what is needed: once `connect` clears the flag under a probe that is mid-cycle,
      some continuation sends a user command to a primary that failed over and has proved nothing since. */
  lemma UndisciplinedClearIsUnsafe(steps: seq<Step>, s: State) returns (more: seq<Step>)
    requires Exec(steps) == Some(s) && s.caller.PrimaryArmed? && !Disciplined(s, ClearAfterConnect)
    ensures steps < more && Exec(more).Some? && !Guarded(Exec(more).value.log)
  {
    ExecSnoc(steps, s, ClearAfterConnect);
    more := steps + [ClearAfterConnect];
    var t := Next(s, ClearAfterConnect);
    ExecSnoc(more, t, StartProbe);
    more, t := more + [StartProbe], Next(t, StartProbe);
    if t.probe.Probing? {
      ExecSnoc(more, t, ProbePing(true));
      more, t := more + [ProbePing(true)], Next(t, ProbePing(true));
    }
    more, t := CallOnPrimary(more, t, ConnectionLost);
    GuardSnoc(t.log, FailedOver);
    more, t := StaleClear(more, t);
    GuardSnoc(t.log, Issued(t.calls + 1, false, Primary));
    more, t := CallOnPrimary(more, t, Returns);
  }

  /** Such a clear is reachable: the probe pings, the console drops, and `connect` re-arms before the probe writes. */
  lemma UndisciplinedClearIsReachable() returns (steps: seq<Step>, s: State)
    ensures Exec(steps) == Some(s) && s.caller.PrimaryArmed? && !Disciplined(s, ClearAfterConnect)
  {
    steps, s := MidProbe();
    ExecSnoc(steps, s, ProbePing(true));
    steps, s := steps + [ProbePing(true)], Next(s, ProbePing(true));
    ExecSnoc(steps, s, LinkLost(Fallback));
    steps, s := steps + [LinkLost(Fallback)], Next(s, LinkLost(Fallback));
    steps, s := Arm(steps, s, Returns);
  }

  /** The first connect is refused, and the probe is on its way. */
  lemma MidProbe() returns (steps: seq<Step>, s: State)
    ensures Exec(steps) == Some(s) && s == State(true, false, true, Idle, Probing, false, 0, [FailedOver])
  {
    var empty: seq<Step> := [];
    assert Exec(empty) == Some(INITIAL);
    steps, s := Arm(empty, INITIAL, ConnectionLost);
    hide Exec;
    assert s.log + [FailedOver] == [FailedOver];
    ExecSnoc(steps, s, SetAfterRefusal);
    steps, s := steps + [SetAfterRefusal], State(true, false, true, Starting, Dead, false, 0, [FailedOver]);
    ExecSnoc(steps, s, StartProbe);
    steps, s := steps + [StartProbe], s.(caller := Idle, probe := Sleeping);
    ExecSnoc(steps, s, ProbeCheck);
    steps, s := steps + [ProbeCheck], s.(probe := Probing);
  }

  lemma Arm(steps: seq<Step>, s: State, o: Outcome) returns (more: seq<Step>, t: State)
    requires Exec(steps) == Some(s) && s.caller.Idle? && !s.fallbackUp && (s.failedOver || !s.primaryUp)
    ensures Exec(more) == Some(t) && steps < more
    ensures t == Next(s.(fallbackUp := true, caller := FallbackArmed), ConnectPrimary(o))
  {
    ExecSnoc(steps, s, StartConnect);
    var s1 := s.(caller := Arming);
    ExecSnoc(steps + [StartConnect], s1, ConnectFallback(true));
    var s2 := s.(fallbackUp := true, caller := FallbackArmed);
    ExecSnoc(steps + [StartConnect] + [ConnectFallback(true)], s2, ConnectPrimary(o));
    more, t := steps + [StartConnect] + [ConnectFallback(true)] + [ConnectPrimary(o)], Next(s2, ConnectPrimary(o));
  }

  // ---------------------------------------------------------------- the shift to the fallback is not permanent

  /** A user command went to the primary after a failover. */
  predicate Returned(log: seq<Event>) {
    exists i, j :: 0 <= i < j < |log| && log[i].FailedOver? && log[j].Issued? && log[j].via.Primary?
  }

  /** No step took the flag back. */
  predicate NeverCleared(steps: seq<Step>)
    requires Exec(steps).Some?
  {
    steps == [] || (
      var init := steps[..|steps| - 1];
      NeverCleared(init) && (Exec(init).value.failedOver ==> Exec(steps).value.failedOver))
  }

  predicate ShiftInv(s: State) {
    && !Returned(s.log)
    && (FailedOver in s.log ==> s.failedOver)
    && (s.caller.ToPrimary? || s.caller.Severed? ==> !s.failedOver)
  }

  lemma ReturnedSnoc(log: seq<Event>, e: Event)
    requires !Returned(log) && (e.Issued? && e.via.Primary? ==> FailedOver !in log)
    ensures !Returned(log + [e])
  {
    assert forall i :: 0 <= i < |log| ==> (log + [e])[i] == log[i];
  }

  lemma ShiftStep(s: State, a: Step)
    requires ShiftInv(s) && Enabled(s, a) && (s.failedOver ==> Next(s, a).failedOver)
    ensures ShiftInv(Next(s, a))
  {
    hide Returned;
    var t := Next(s, a);
    if t.log != s.log {
      var e := t.log[|t.log| - 1];
      assert t.log == s.log + [e];
      ReturnedSnoc(s.log, e);
    }
  }

  /** The documented permanent shift holds in every run in which nothing takes the flag back. */
  lemma {:induction false} PermanentWhileUncleared(steps: seq<Step>)
    requires Exec(steps).Some? && NeverCleared(steps)
    ensures !Returned(Exec(steps).value.log) && ShiftInv(Exec(steps).value)
    decreases |steps|
  {
    if steps != [] {
      PermanentWhileUncleared(steps[..|steps| - 1]);
      ShiftStep(Exec(steps[..|steps| - 1]).value, steps[|steps| - 1]);
    }
  }

  /** The caller can always come to rest. */
  lemma Settle(steps: seq<Step>, s: State) returns (more: seq<Step>, t: State)
    requires Exec(steps) == Some(s)
    ensures Exec(more) == Some(t) && steps <= more && s.log <= t.log && t.caller.Idle?
  {
    more, t := steps, s;
    while !t.caller.Idle?
      invariant Exec(more) == Some(t) && steps <= more && s.log <= t.log
      decreases Distance(t.caller)
    {
      var a := Onward(t.caller);
      ExecSnoc(more, t, a);
      more, t := more + [a], Next(t, a);
    }
  }

  /** A step that brings the caller nearer to rest. */
  function Onward(c: Caller): Step {
    match c
    case Idle => StartConnect
    case Called(_) => ReadFlag
    case ToPrimary(_) => IssuePrimary(Returns)
    case ToFallback(_) => IssueFallback
    case Severed(_) => SetFlag
    case Waking(_) => Wake(false)
    case Woken(_) => AfterWake
    case Arming => ConnectFallback(false)
    case FallbackArmed => ConnectPrimary(Raises)
    case PrimaryArmed => ClearAfterConnect
    case PrimaryRefused => SetAfterRefusal
    case Starting => StartProbe
    case Closing => CloseLinks
  }

  function Distance(c: Caller): nat {
    match c
    case Idle => 0
    case Called(_) => 2
    case Severed(_) => 2
    case Woken(_) => 2
    case PrimaryArmed => 2
    case PrimaryRefused => 2
    case _ => 1
  }

  /** A recovery thread that is not told to stop can take the flag back. */
  lemma FailBack(steps: seq<Step>, s: State) returns (more: seq<Step>, t: State)
    requires Exec(steps) == Some(s) && s.failedOver && !s.probe.Dead? && !s.stop
    ensures Exec(more) == Some(t) && steps <= more
    ensures t == s.(failedOver := false, probe := Sleeping, primaryUp := t.primaryUp,
                    log := if s.probe.Clearing? then s.log else s.log + [PingOk])
  {
    more, t := steps, s;
    if t.probe.Sleeping? {
      ExecSnoc(more, t, ProbeCheck);
      more, t := more + [ProbeCheck], Next(t, ProbeCheck);
    }
    if t.probe.Probing? {
      ExecSnoc(more, t, ProbePing(true));
      more, t := more + [ProbePing(true)], Next(t, ProbePing(true));
    }
    ExecSnoc(more, t, ProbeClear);
    more, t := more + [ProbeClear], Next(t, ProbeClear);
  }

  /** Where the recovery thread is gone or going, a disconnect and a connect take the flag back. */
  lemma Reconnect(steps: seq<Step>, s: State) returns (more: seq<Step>, t: State)
    requires Exec(steps) == Some(s) && s.caller.Idle?
    ensures Exec(more) == Some(t) && steps <= more && s.log <= t.log && t.caller.Idle? && !t.failedOver
  {
    hide Exec;
    ExecSnoc(steps, s, Disconnect);
    more, t := steps + [Disconnect], Next(s, Disconnect);
    ExecSnoc(more, t, CloseLinks);
    more, t := more + [CloseLinks], Next(t, CloseLinks);
    more, t := Arm(more, t, Returns);
    ExecSnoc(more, t, ClearAfterConnect);
    more, t := more + [ClearAfterConnect], Next(t, ClearAfterConnect);
    ExecSnoc(more, t, StartProbe);
    more, t := more + [StartProbe], Next(t, StartProbe);
  }

  /** The documented permanent shift is never permanent: every run with a failover can go on to use the primary again. */
  lemma ShiftIsNeverPermanent(steps: seq<Step>) returns (more: seq<Step>)
    requires Exec(steps).Some? && FailedOver in Exec(steps).value.log
    ensures steps < more && Exec(more).Some? && Returned(Exec(more).value.log)
  {
    var s := Exec(steps).value;
    hide Exec;
    var t;
    more, t := Settle(steps, s);
    if t.failedOver && !t.probe.Dead? && !t.stop {
      more, t := FailBack(more, t);
    } else if t.failedOver {
      more, t := Reconnect(more, t);
    }
    var rested := t;
    more, t := CallOnPrimary(more, t, Returns);
    var i :| 0 <= i < |s.log| && s.log[i].FailedOver?;
    assert t.log[i] == s.log[i] && t.log[|rested.log|] == Issued(rested.calls + 1, false, Primary);
  }

  lemma ConnectBoth() returns (steps: seq<Step>, s: State)
    ensures Exec(steps) == Some(s) && s == State(false, true, true, Idle, Sleeping, false, 0, [ConnectOk])
  {
    var empty: seq<Step> := [];
    assert Exec(empty) == Some(INITIAL);
    steps, s := Arm(empty, INITIAL, Returns);
    hide Exec;
    assert s.log == [ConnectOk];
    ExecSnoc(steps, s, ClearAfterConnect);
    steps, s := steps + [ClearAfterConnect], s.(caller := Starting);
    ExecSnoc(steps, s, StartProbe);
    steps, s := steps + [StartProbe], s.(caller := Idle, probe := Sleeping);
  }

  /** Connected through both links, a call loses the primary. */
  lemma LoseCall() returns (steps: seq<Step>, s: State)
    ensures Exec(steps) == Some(s)
    ensures s == State(true, true, true, Idle, Sleeping, false, 1, [ConnectOk, Issued(1, false, Primary), FailedOver])
  {
    hide Exec;
    steps, s := ConnectBoth();
    steps, s := CallOnPrimary(steps, s, ConnectionLost);
    assert s.log + [FailedOver] == [ConnectOk, Issued(1, false, Primary), FailedOver];
    ExecSnoc(steps, s, SetFlag);
    steps, s := steps + [SetFlag], s.(failedOver := true, caller := Waking(false), log := s.log + [FailedOver]);
    ExecSnoc(steps, s, Wake(false));
    steps, s := steps + [Wake(false)], s.(caller := Idle);
  }

  /** One such run, without a second connect: the primary is lost during a call, answers a ping, and gets the next call. */
  lemma ShiftFailsBack() returns (steps: seq<Step>, s: State)
    ensures Exec(steps) == Some(s) && Returned(s.log)
    ensures s.log == [ConnectOk, Issued(1, false, Primary), FailedOver, PingOk, Issued(2, false, Primary)]
  {
    hide Exec;
    steps, s := LoseCall();
    steps, s := FailBack(steps, s);
    steps, s := CallOnPrimary(steps, s, Returns);
    assert s.log[2].FailedOver? && s.log[4].Issued? && s.log[4].via.Primary?;
  }

  // ---------------------------------------------------------------- a recovery thread that is not restarted

  /** The flag is up, the console is connected, and no recovery thread runs. */
  predicate Stranded(s: State) {
    && s.failedOver && s.fallbackUp && s.probe.Dead?
    && !s.caller.Arming? && !s.caller.FallbackArmed? && !s.caller.PrimaryArmed? && !s.caller.PrimaryRefused?
    && !s.caller.Starting? && !s.caller.Closing?
  }

  /** Only losing the console or a disconnect ends this: until then every command goes to the fallback. */
  lemma StrandedStays(s: State, a: Step)
    requires Stranded(s) && Enabled(s, a)
    ensures a != Disconnect && a != LinkLost(Fallback) ==> Stranded(Next(s, a))
  {
  }

  /** A disconnect that does not outwait the probe, and a connect behind it, lead there: the old thread was still alive. */
  lemma ReconnectStrands() returns (steps: seq<Step>, s: State)
    ensures Exec(steps) == Some(s) && Stranded(s) && s.caller.Idle?
  {
    hide Exec;
    steps, s := MidProbe();
    ExecSnoc(steps, s, Disconnect);
    steps, s := steps + [Disconnect], s.(stop := true, caller := Closing);
    ExecSnoc(steps, s, CloseLinks);
    steps, s := steps + [CloseLinks], s.(fallbackUp := false, caller := Idle);
    steps, s := Arm(steps, s, ConnectionLost);
    ExecSnoc(steps, s, SetAfterRefusal);
    steps, s := steps + [SetAfterRefusal], s.(caller := Starting);
    ExecSnoc(steps, s, StartProbe);
    steps, s := steps + [StartProbe], s.(caller := Idle);
    ExecSnoc(steps, s, ProbePing(false));
    steps, s := steps + [ProbePing(false)], s.(probe := Sleeping);
    ExecSnoc(steps, s, ProbeExit);
    steps, s := steps + [ProbeExit], s.(probe := Dead);
  }
}
