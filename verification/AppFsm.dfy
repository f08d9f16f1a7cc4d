/** `McuAppStateMachine`: the transition table and the time accounting of observed application states. */
module AppFsm {
  import opened Sequences

  /** `source` is `None` for the wildcard `*`. */
  datatype Transition = Transition(trigger: string, source: Option<string>, dest: string)

  const BASE_TRANSITIONS: seq<Transition> := [
    Transition("boot_started", Some("OFFLINE"), "BOOTING"),
    Transition("network_up", Some("BOOTING"), "NETWORK_UP"),
    Transition("time_synced", Some("NETWORK_UP"), "TIME_SYNCED"),
    Transition("app_ready", Some("TIME_SYNCED"), "APP_READY"),
    Transition("reset", None, "OFFLINE"),
    Transition("app_ready", Some("NETWORK_UP"), "APP_READY"),
    Transition("app_ready", Some("BOOTING"), "APP_READY")
  ]

  predicate Fires(t: Transition, trigger: string, state: string) {
    t.trigger == trigger && (t.source == None || t.source == Some(state))
  }

  predicate FirstFit(ts: seq<Transition>, i: int, trigger: string, state: string) {
    && 0 <= i < |ts| && Fires(ts[i], trigger, state)
    && forall j :: 0 <= j < i ==> !Fires(ts[j], trigger, state)
  }

  /** The steps of a boot, which may skip the synchronised clock or both it and the network, and the reset. */
  predicate BootStep(before: string, after: string) {
    || after == "OFFLINE"
    || (after == "BOOTING" && before == "OFFLINE")
    || (after == "NETWORK_UP" && before == "BOOTING")
    || (after == "TIME_SYNCED" && before == "NETWORK_UP")
    || (after == "APP_READY" && (before == "TIME_SYNCED" || before == "NETWORK_UP" || before == "BOOTING"))
  }

  /** The event that asks for a state. */
  function EventFor(state: string): string {
    if state == "OFFLINE" then "reset"
    else if state == "BOOTING" then "boot_started"
    else if state == "NETWORK_UP" then "network_up"
    else if state == "TIME_SYNCED" then "time_synced"
    else "app_ready"
  }

  /** Without extensions a transition fires exactly along a step of the boot, on the event that asks for its end. */
  lemma BaseTransitions(trigger: string, before: string, after: string)
    ensures (exists i :: FirstFit(BASE_TRANSITIONS, i, trigger, before) && BASE_TRANSITIONS[i].dest == after) <==>
            BootStep(before, after) && trigger == EventFor(after)
  {
    if BootStep(before, after) && trigger == EventFor(after) {
      var i := if after == "OFFLINE" then 4 else if after == "BOOTING" then 0 else if after == "NETWORK_UP" then 1
               else if after == "TIME_SYNCED" then 2 else if before == "TIME_SYNCED" then 3
               else if before == "NETWORK_UP" then 5 else 6;
      assert FirstFit(BASE_TRANSITIONS, i, trigger, before);
    }
  }

  /** Whatever an extension adds, a reset is accepted in every state and leads to OFFLINE. */
  lemma ResetAlwaysFits(extra: seq<Transition>, state: string)
    ensures FirstFit(BASE_TRANSITIONS + extra, 4, "reset", state) && (BASE_TRANSITIONS + extra)[4].dest == "OFFLINE"
  {
    var all := BASE_TRANSITIONS + extra;
    assert all[4] == BASE_TRANSITIONS[4] && Fires(all[4], "reset", state);
    forall j | 0 <= j < 4 ensures !Fires(all[j], "reset", state) {
      assert all[j] == BASE_TRANSITIONS[j];
    }
  }

  ghost function Sum(m: map<string, real>): real
    decreases |m|
  {
    if m == map[] then 0.0
    else
      var k :| k in m;
      m[k] + Sum(m - {k})
  }

  predicate NonNegative(m: map<string, real>) {
    forall k :: k in m ==> m[k] >= 0.0
  }

  /** The sum does not depend on the order in which the entries are added. */
  lemma {:induction false} SumWithout(m: map<string, real>, k: string)
    requires k in m
    ensures Sum(m) == m[k] + Sum(m - {k})
    decreases |m|
  {
    var j :| j in m && Sum(m) == m[j] + Sum(m - {j});
    if j != k {
      SumWithout(m - {j}, k);
      SumWithout(m - {k}, j);
      assert m - {j} - {k} == m - {k} - {j};
    }
  }

  function Get(m: map<string, real>, k: string, default: real): real {
    if k in m then m[k] else default
  }

  /** Adding `d` to one entry adds `d` to the sum, whether or not the entry was there. */
  lemma SumAdd(m: map<string, real>, k: string, d: real)
    ensures Sum(m[k := Get(m, k, 0.0) + d]) == Sum(m) + d
  {
    var m' := m[k := Get(m, k, 0.0) + d];
    SumWithout(m', k);
    assert m' - {k} == m - {k};
    if k in m {
      SumWithout(m, k);
    } else {
      assert m - {k} == m;
    }
  }

  datatype Visit = Visit(state: string, since: real)

  predicate Ordered(visits: seq<Visit>) {
    forall i, j :: 0 <= i < j < |visits| ==> visits[i].since <= visits[j].since
  }

  /** The time spent in `s` up to `now`, each visit lasting until the next one begins. */
  function TimeIn(visits: seq<Visit>, s: string, now: real): real {
    if visits == [] then 0.0
    else
      var last := visits[|visits| - 1];
      TimeIn(visits[..|visits| - 1], s, last.since) + (if last.state == s then now - last.since else 0.0)
  }

  /** Time goes on in the state that is being visited and in no other; a state that was never visited has none. */
  lemma {:induction false} TimeGoesOn(visits: seq<Visit>, s: string, t: real, now: real)
    ensures visits != [] ==>
              TimeIn(visits, s, now) - TimeIn(visits, s, t) == if visits[|visits| - 1].state == s then now - t else 0.0
    ensures (forall i :: 0 <= i < |visits| ==> visits[i].state != s) ==> TimeIn(visits, s, now) == 0.0
  {
    if visits != [] {
      TimeGoesOn(visits[..|visits| - 1], s, t, visits[|visits| - 1].since);
    }
  }

  /** The same, without the visit that is still going on. */
  function TimeClosed(visits: seq<Visit>, s: string): real {
    if visits == [] then 0.0 else TimeIn(visits[..|visits| - 1], s, visits[|visits| - 1].since)
  }

  ghost predicate Reports(m: map<string, real>, visits: seq<Visit>, now: real) {
    forall s :: Get(m, s, 0.0) == TimeIn(visits, s, now)
  }

  ghost predicate ReportsClosed(m: map<string, real>, visits: seq<Visit>) {
    forall s :: Get(m, s, 0.0) == TimeClosed(visits, s)
  }

  /** A new visit closes the one before it. */
  lemma NextVisit(m: map<string, real>, visits: seq<Visit>, v: Visit)
    requires Reports(m, visits, v.since)
    ensures ReportsClosed(m, visits + [v])
  {
    assert (visits + [v])[..|visits|] == visits;
    forall s ensures Get(m, s, 0.0) == TimeClosed(visits + [v], s) {
      assert Get(m, s, 0.0) == TimeIn(visits, s, v.since);
    }
  }

  /** Adding the visit that is going on to the closed ones. */
  lemma CloseVisit(m: map<string, real>, visits: seq<Visit>, now: real)
    requires visits != [] && ReportsClosed(m, visits)
    ensures var last := visits[|visits| - 1];
            var m' := m[last.state := Get(m, last.state, 0.0) + (now - last.since)];
            Reports(m', visits, now) && Sum(m') == Sum(m) + (now - last.since)
  {
    var last := visits[|visits| - 1];
    var m' := m[last.state := Get(m, last.state, 0.0) + (now - last.since)];
    SumAdd(m, last.state, now - last.since);
    forall s ensures Get(m', s, 0.0) == TimeIn(visits, s, now) {
      assert TimeIn(visits, s, now) == TimeClosed(visits, s) + if last.state == s then now - last.since else 0.0;
      assert Get(m, s, 0.0) == TimeClosed(visits, s);
    }
  }

  lemma NoVisit(now: real)
    ensures Reports(map[], [], now) && Sum(map[]) == 0.0
  {
  }

  /** Every visit is a step of the boot from the one before it, the first from the initial state. */
  predicate BootOrder(initial: string, visits: seq<Visit>) {
    forall i :: 0 <= i < |visits| ==> BootStep(StateBefore(initial, visits, i), visits[i].state)
  }

  function StateBefore(initial: string, visits: seq<Visit>, i: nat): string
    requires i <= |visits|
  {
    if i == 0 then initial else visits[i - 1].state
  }

  lemma OrderSnoc(initial: string, visits: seq<Visit>, v: Visit)
    requires BootOrder(initial, visits) && BootStep(StateBefore(initial, visits, |visits|), v.state)
    ensures BootOrder(initial, visits + [v])
  {
    hide BootStep;
    var longer := visits + [v];
    forall i | 0 <= i < |longer| ensures BootStep(StateBefore(initial, longer, i), longer[i].state) {
      assert i > 0 ==> longer[i - 1] == visits[i - 1];
      if i < |visits| {
        assert longer[i] == visits[i];
      }
    }
  }

  predicate Offline(state: string) {
    state == "OFFLINE"
  }

  predicate Booting(state: string) {
    state == "BOOTING"
  }

  lemma StepNeeds(before: string, after: string)
    requires BootStep(before, after)
    ensures !Offline(after) && !Booting(after) ==> !Offline(before)
    ensures Booting(after) ==> !Offline(after)
  {
  }

  /** Whatever is reached beyond a boot, the application's readiness included, a boot came first since the last offline. */
  lemma {:induction false} ReadyNeedsBoot(initial: string, visits: seq<Visit>, i: nat) returns (j: nat)
    requires Offline(initial) && BootOrder(initial, visits) && i < |visits| && !Offline(visits[i].state)
    ensures j <= i && Booting(visits[j].state) && forall k :: j <= k <= i ==> !Offline(visits[k].state)
    decreases i
  {
    StepNeeds(StateBefore(initial, visits, i), visits[i].state);
    hide BootStep, Offline, Booting;
    if Booting(visits[i].state) {
      j := i;
    } else {
      j := ReadyNeedsBoot(initial, visits, i - 1);
    }
  }

  class McuAppStateMachine {
    const transitions: seq<Transition>
    var state: string
    var stateTimestamps: map<string, real>
    var stateDurations: map<string, real>
    /** The accepted transitions: which state was entered, and when. */
    ghost var visits: seq<Visit>
    /** When the object was made. The source does not record it. */
    ghost const created: real

    ghost predicate Valid()
      reads this
    {
      && (visits == [] ==> stateTimestamps == map[] && stateDurations == map[])
      && (visits != [] ==>
            var last := visits[|visits| - 1];
            && last == Visit(state, Get(stateTimestamps, state, 0.0)) && state in stateTimestamps
            && Sum(stateDurations) == last.since - visits[0].since)
      && Ordered(visits) && NonNegative(stateDurations)
      && (forall i :: 0 <= i < |visits| ==> created <= visits[i].since)
      && ReportsClosed(stateDurations, visits)
    }

    /** The clock has not gone back. */
    ghost predicate NotBefore(now: real)
      reads this
    {
      created <= now && forall i :: 0 <= i < |visits| ==> visits[i].since <= now
    }

    constructor (initial: string, extra: seq<Transition>, ghost now: real)
      ensures Valid() && state == initial && visits == [] && transitions == BASE_TRANSITIONS + extra && created == now
    {
      created := now;
      transitions := BASE_TRANSITIONS + extra;
      state := initial;
      stateTimestamps, stateDurations, visits := map[], map[], [];
    }

    /** Fires the first transition that fits; one that fits nothing changes nothing. */
    method FeedEvent(trigger: string, now: real) returns (accepted: bool)
      requires Valid() && NotBefore(now)
      modifies this
      ensures Valid() && NotBefore(now)
      ensures accepted <==> exists i :: 0 <= i < |transitions| && Fires(transitions[i], trigger, old(state))
      ensures accepted ==> visits == old(visits) + [Visit(state, now)]
      ensures accepted ==> exists i :: FirstFit(transitions, i, trigger, old(state)) && state == transitions[i].dest
      ensures !accepted ==> unchanged(this)
    {
      var i := 0;
      while i < |transitions| && !Fires(transitions[i], trigger, state)
        invariant 0 <= i <= |transitions|
        invariant forall j :: 0 <= j < i ==> !Fires(transitions[j], trigger, state)
      {
        i := i + 1;
      }
      if i == |transitions| {
        return false;
      }
      assert FirstFit(transitions, i, trigger, old(state));
      RecordTimestamp(transitions[i].dest, now);
      accepted := true;
    }

    /** The after-change callback: close the old state's visit, stamp the new one. A self-reset does both. */
    method RecordTimestamp(dest: string, now: real)
      requires Valid() && NotBefore(now)
      modifies this
      ensures Valid() && NotBefore(now) && state == dest
      ensures visits == old(visits) + [Visit(dest, now)]
    {
      hide Sum, TimeIn, TimeClosed;
      NoVisit(now);
      var oldState := state;
      if oldState in stateTimestamps {
        CloseVisit(stateDurations, visits, now);
        stateDurations := stateDurations[oldState := Get(stateDurations, oldState, 0.0) + (now - stateTimestamps[oldState])];
      }
      assert Reports(stateDurations, visits, now);
      state := dest;
      stateTimestamps := stateTimestamps[state := now];
      NextVisit(stateDurations, visits, Visit(dest, now));
      visits := visits + [Visit(dest, now)];
    }

    /** The reported durations are the time spent in each state, and together every instant since the first transition. */
    method StateDurations(now: real) returns (durations: map<string, real>)
      requires Valid() && NotBefore(now)
      ensures NonNegative(durations) && Reports(durations, visits, now)
      ensures visits == [] ==> durations == map[]
      ensures visits != [] ==> Sum(durations) == now - visits[0].since
      ensures Sum(durations) == now - created <==> created == if visits == [] then now else visits[0].since
    {
      durations := stateDurations;
      if state in stateTimestamps {
        CloseVisit(durations, visits, now);
        durations := durations[state := Get(durations, state, 0.0) + (now - stateTimestamps[state])];
      } else {
        assert forall s :: TimeIn(visits, s, now) == TimeClosed(visits, s);
      }
    }
  }

  /** The time in the initial state is not reported: made at 0, booting since 5, and at 8 the times add up to 3. */
  method InitialTimeIsMissing() returns (m: McuAppStateMachine, durations: map<string, real>)
    ensures m.created == 0.0 && Get(durations, "OFFLINE", 0.0) == 0.0 && Sum(durations) == 3.0
  {
    m := new McuAppStateMachine("OFFLINE", [], 0.0);
    assert Fires(m.transitions[0], "boot_started", "OFFLINE");
    var accepted := m.FeedEvent("boot_started", 5.0);
    durations := m.StateDurations(8.0);
    assert m.visits == [Visit("BOOTING", 5.0)] && TimeIn(m.visits, "OFFLINE", 8.0) == 0.0;
  }

  /** Any series of events on a machine without extensions: what is accepted follows the order of the boot. */
  method FeedAll(events: seq<string>, clock: nat -> real) returns (m: McuAppStateMachine, accepted: seq<bool>)
    requires forall i, j :: 0 <= i <= j ==> clock(i) <= clock(j)
    ensures fresh(m) && m.Valid() && |accepted| == |events|
    ensures BootOrder("OFFLINE", m.visits) && BootState(m.state)
    ensures forall i :: 0 <= i < |events| && events[i] == "reset" ==> accepted[i]
  {
    m := new McuAppStateMachine("OFFLINE", [], clock(0));
    accepted := [];
    assert BASE_TRANSITIONS + [] == BASE_TRANSITIONS;
    for i := 0 to |events|
      invariant fresh(m) && m.Valid() && m.NotBefore(clock(i)) && m.transitions == BASE_TRANSITIONS && |accepted| == i
      invariant BootOrder("OFFLINE", m.visits) && BootState(m.state)
      invariant m.state == StateBefore("OFFLINE", m.visits, |m.visits|)
      invariant forall k :: 0 <= k < i && events[k] == "reset" ==> accepted[k]
    {
      ghost var before, visits := m.state, m.visits;
      var ok := m.FeedEvent(events[i], clock(i));
      if ok {
        BaseTransitions(events[i], before, m.state);
        OrderSnoc("OFFLINE", visits, Visit(m.state, clock(i)));
      }
      assert Fires(BASE_TRANSITIONS[4], "reset", before);
      accepted := accepted + [ok];
    }
  }

  predicate BootState(state: string) {
    state == "OFFLINE" || state == "BOOTING" || state == "NETWORK_UP" || state == "TIME_SYNCED" || state == "APP_READY"
  }
}
