/** The DPS-150's software sweeps, over real numbers: setpoints, range checks, and the output switch. */
module PsuSweep {

  datatype Axis = Voltage | Current

  /** What happens in one step of a sweep after the setpoint was commanded. */
  datatype Reaction =
    | NoState
    | Reading(volts: real, amps: real, watts: real, callback: Callback)
    | Fault

  datatype Callback = Absent | GoOn | Abort | Throws

  datatype Sample = Sample(step: nat, volts: real, amps: real, watts: real)

  datatype Ending = Completed | Aborted | Raised | Rejected

  function Abs(x: real): real {
    if x < 0.0 then -x else x
  }

  /** The number of setpoints of a full sweep. */
  function Setpoints(start: real, stop: real, step: real): int
    requires step > 0.0
  {
    (Abs(stop - start) / step + 0.01).Floor + 1
  }

  /** The `k`-th point of the ramp, before it is clamped. */
  function Point(start: real, stop: real, step: real, k: int): real {
    if stop >= start then start + k as real * step else start - k as real * step
  }

  function Clamp(x: real, max: real): real {
    var low := if x < max then x else max;
    if 0.0 > low then 0.0 else low
  }

  /** The loop's guard. */
  predicate Within(start: real, stop: real, step: real, v: real) {
    if stop >= start then v <= stop + step / 100.0 else v >= stop - step / 100.0
  }

  lemma ScaledBound(k: int, d: real, step: real)
    requires step > 0.0
    ensures k as real * step <= d + step / 100.0 <==> k as real <= d / step + 0.01
  {
    var q, x := d / step, k as real;
    assert q * step == d;
    ProductSign(q + 0.01 - x, step);
    assert (q + 0.01 - x) * step == q * step + 0.01 * step - x * step;
  }

  lemma ProductSign(a: real, b: real)
    requires b > 0.0
    ensures a * b >= 0.0 <==> a >= 0.0
  {
    if a < 0.0 {
      assert (-a) * b > 0.0;
    }
  }

  /** The guard lets through exactly the first `Setpoints` points. */
  lemma GuardCounts(start: real, stop: real, step: real, k: nat)
    requires step > 0.0
    ensures Within(start, stop, step, Point(start, stop, step, k)) <==> k < Setpoints(start, stop, step)
  {
    var d := Abs(stop - start);
    ScaledBound(k, d, step);
    var x := d / step + 0.01;
    assert k as real <= x <==> k <= x.Floor;
  }

  lemma FirstPoint(start: real, stop: real, step: real)
    requires step > 0.0
    ensures Point(start, stop, step, 0) == start && Within(start, stop, step, start)
  {
    assert 0 as real * step == 0.0;
  }

  lemma NextPoint(start: real, stop: real, step: real, k: nat)
    ensures Point(start, stop, step, k + 1) ==
            if stop >= start then Point(start, stop, step, k) + step else Point(start, stop, step, k) - step
  {
    assert (k + 1) as real * step == k as real * step + step;
  }

  /** Clamping touches a point of the ramp only beyond the stop value, and by at most a hundredth of a step. */
  lemma ClampIsSlight(start: real, stop: real, step: real, k: nat, max: real)
    requires step > 0.0 && 0.0 <= start <= max && 0.0 <= stop <= max && k < Setpoints(start, stop, step)
    ensures var p := Point(start, stop, step, k); Abs(Clamp(p, max) - p) <= step / 100.0
  {
    GuardCounts(start, stop, step, k);
    assert k as real * step >= 0.0;
  }

  /** What a step's reaction means for the sweep; `Completed` is to go on. */
  function After(r: Reaction): Ending {
    match r
    case NoState => Completed
    case Fault => Raised
    case Reading(_, _, _, callback) => if callback.Throws? then Raised else if callback.Abort? then Aborted else Completed
  }

  /** A reading after which the callback wants no more. */
  predicate SaysAbort(r: Reaction) {
    r.Reading? && r.callback.Abort?
  }

  /** The supply or the callback raises. */
  predicate BreaksOff(r: Reaction) {
    r.Fault? || (r.Reading? && r.callback.Throws?)
  }

  lemma AfterMeans(r: Reaction)
    ensures (After(r).Aborted? <==> SaysAbort(r)) && (After(r).Raised? <==> BreaksOff(r)) && !After(r).Rejected?
  {
  }

  /** How a sweep of `n` steps ended, from what each step's reaction means. */
  lemma EndingMeans(env: nat -> Reaction, n: nat, ending: Ending)
    requires n > 0 && ending == After(env(n - 1)) && forall k :: 0 <= k < n - 1 ==> After(env(k)).Completed?
    ensures forall k :: 0 <= k < n && SaysAbort(env(k)) ==> k == n - 1 && ending.Aborted?
    ensures forall k :: 0 <= k < n && BreaksOff(env(k)) ==> k == n - 1 && ending.Raised?
    ensures (ending.Aborted? ==> SaysAbort(env(n - 1))) && (ending.Raised? ==> BreaksOff(env(n - 1)))
  {
    hide After, SaysAbort, BreaksOff;
    forall k | 0 <= k < n ensures (SaysAbort(env(k)) <==> After(env(k)).Aborted?) && (BreaksOff(env(k)) <==> After(env(k)).Raised?) {
      AfterMeans(env(k));
    }
  }

  /** The readings of the first `n` steps. */
  function Samples(env: nat -> Reaction, n: nat): seq<Sample> {
    if n == 0 then [] else Samples(env, n - 1) + SampleOf(env(n - 1), n - 1)
  }

  function SampleOf(r: Reaction, k: nat): seq<Sample> {
    match r { case Reading(v, a, w, _) => [Sample(k, v, a, w)] case NoState => [] case Fault => [] }
  }

  /** A sample is there exactly for each step that was read, with what was read, and in the order of the steps. */
  lemma {:induction false} SamplesAre(env: nat -> Reaction, n: nat, s: Sample)
    ensures s in Samples(env, n) <==>
            && 0 <= s.step < n && env(s.step).Reading?
            && s.volts == env(s.step).volts && s.amps == env(s.step).amps && s.watts == env(s.step).watts
    ensures var all := Samples(env, n);
            && (forall i :: 0 <= i < |all| ==> all[i].step < n)
            && (forall i, j :: 0 <= i < j < |all| ==> all[i].step < all[j].step)
  {
    if n > 0 {
      SamplesAre(env, n - 1, s);
    }
  }

  lemma NoSamples(env: nat -> Reaction)
    ensures Samples(env, 0) == []
  {
  }

  lemma SamplesSnoc(env: nat -> Reaction, k: nat)
    ensures Samples(env, k + 1) == Samples(env, k) + SampleOf(env(k), k)
  {
  }

  lemma ClampInRange(x: real, max: real)
    requires 0.0 <= max
    ensures 0.0 <= Clamp(x, max) <= max
  {
  }

  /** What is read in a step is kept; the callback, the first to see it, may raise or put an end to the sweep. */
  method React(r: Reaction, k: nat) returns (after: Ending, taken: seq<Sample>)
    ensures after == After(r) && taken == SampleOf(r, k)
  {
    taken := [];
    match r
    case Fault =>
      after := Raised;
    case NoState =>
      after := Completed;
    case Reading(vo, am, wa, callback) =>
      taken := [Sample(k, vo, am, wa)];
      after := if callback.Throws? then Raised else if callback.Abort? then Aborted else Completed;
  }

  class Dps150 {
    const maxVoltage: real
    const maxCurrent: real
    var volts: real
    var amps: real
    var outputOn: bool

    constructor (maxVoltage: real, maxCurrent: real)
      ensures this.maxVoltage == maxVoltage && this.maxCurrent == maxCurrent && !outputOn
    {
      this.maxVoltage, this.maxCurrent := maxVoltage, maxCurrent;
      volts, amps, outputOn := 0.0, 0.0, false;
    }

    function Max(axis: Axis): real {
      if axis.Voltage? then maxVoltage else maxCurrent
    }

    /** `set_voltage` and `set_current`: out of range is refused and nothing is written. */
    method Set(axis: Axis, x: real) returns (ok: bool)
      modifies this`volts, this`amps
      ensures ok <==> 0.0 <= x <= Max(axis)
      ensures ok ==> x <= if axis.Voltage? then maxVoltage else maxCurrent
      ensures ok && axis.Voltage? ==> volts == x && amps == old(amps)
      ensures ok && axis.Current? ==> amps == x && volts == old(volts)
      ensures !ok ==> volts == old(volts) && amps == old(amps)
    {
      ok := 0.0 <= x <= Max(axis);
      if ok {
        if axis.Voltage? { volts := x; } else { amps := x; }
      }
    }

    /** `sweep_voltage` and `sweep_current`: ramp one axis, hold the other at `fixed`. */
    method Sweep(axis: Axis, start: real, stop: real, step: real, fixed: real, env: nat -> Reaction)
        returns (ending: Ending, commanded: seq<real>, results: seq<Sample>)
      modifies this
      ensures var other := if axis.Voltage? then Current else Voltage;
              ending.Rejected? <==>
              step <= 0.0 || !(0.0 <= start <= Max(axis)) || !(0.0 <= stop <= Max(axis)) || !(0.0 <= fixed <= Max(other))
      ensures ending.Rejected? ==> unchanged(this) && commanded == [] && results == []
      ensures !ending.Rejected? ==> !outputOn && |commanded| <= Setpoints(start, stop, step)
      ensures !ending.Rejected? ==> forall k :: 0 <= k < |commanded| ==>
                commanded[k] == Clamp(Point(start, stop, step, k), Max(axis)) && 0.0 <= commanded[k] <= Max(axis)
      ensures ending.Completed? ==> |commanded| == Setpoints(start, stop, step)
      ensures !ending.Rejected? ==> commanded != [] && ending == After(env(|commanded| - 1))
      ensures forall k :: 0 <= k < |commanded| - 1 ==> After(env(k)).Completed?
      ensures results == Samples(env, |commanded|)
      ensures forall k :: 0 <= k < |commanded| && SaysAbort(env(k)) ==> k == |commanded| - 1 && ending.Aborted?
      ensures forall k :: 0 <= k < |commanded| && BreaksOff(env(k)) ==> k == |commanded| - 1 && ending.Raised?
      ensures ending.Aborted? ==> commanded != [] && SaysAbort(env(|commanded| - 1))
      ensures ending.Raised? ==> commanded != [] && BreaksOff(env(|commanded| - 1))
      ensures !ending.Rejected? ==>
                var last := commanded[|commanded| - 1];
                if axis.Voltage? then volts == last && amps == fixed else amps == last && volts == fixed
    {
      hide Setpoints, Within, Point, Clamp, Samples, SampleOf, After, SaysAbort, BreaksOff;
      NoSamples(env);
      commanded, results := [], [];
      var other := if axis.Voltage? then Current else Voltage;
      if step <= 0.0 || start < 0.0 || start > Max(axis) || stop < 0.0 || stop > Max(axis)
         || fixed < 0.0 || fixed > Max(other) {
        return Rejected, [], [];
      }
      var okFixed := Set(other, fixed);
      var okStart := Set(axis, start);
      assert okFixed && okStart;
      outputOn := true;
      var k: nat, v := 0, start;
      ending := Completed;
      GuardCounts(start, stop, step, 0);
      FirstPoint(start, stop, step);
      while Within(start, stop, step, v) && ending.Completed?
        invariant v == Point(start, stop, step, k)
        invariant k <= Setpoints(start, stop, step) && !ending.Rejected?
        invariant |commanded| == if ending.Completed? then k else k + 1
        invariant |commanded| <= Setpoints(start, stop, step)
        invariant forall i :: 0 <= i < |commanded| ==>
                    commanded[i] == Clamp(Point(start, stop, step, i), Max(axis)) && 0.0 <= commanded[i] <= Max(axis)
        invariant if ending.Completed? then k > 0 ==> After(env(k - 1)).Completed? else ending == After(env(k))
        invariant forall i :: 0 <= i < k ==> After(env(i)).Completed?
        invariant results == Samples(env, |commanded|)
        invariant if axis.Voltage? then amps == fixed else volts == fixed
        invariant commanded != [] ==> (if axis.Voltage? then volts else amps) == commanded[|commanded| - 1]
        decreases Setpoints(start, stop, step) - k, ending.Completed?
      {
        GuardCounts(start, stop, step, k);
        GuardCounts(start, stop, step, k + 1);
        NextPoint(start, stop, step, k);
        ClampInRange(v, Max(axis));
        SamplesSnoc(env, k);
        AfterMeans(env(k));
        var clamped := Clamp(v, Max(axis));
        var ok := Set(axis, clamped);
        assert ok;
        commanded := commanded + [clamped];
        var after, taken := React(env(k), k);
        results := results + taken;
        if after.Completed? {
          k, v := k + 1, if stop >= start then v + step else v - step;
        } else {
          ending := after;
        }
      }
      if ending.Completed? {
        GuardCounts(start, stop, step, k);
      }
      EndingMeans(env, |commanded|, ending);
      outputOn := false;
    }
  }
}
