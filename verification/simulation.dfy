/** One tick of the sine-wave simulation, shared by both simulation loops of
    the program: advance simulated time by a fixed step, evaluate
    `amplitude * sin(2π · frequency · time)` at the new time, and push the
    value into a rolling window of a fixed capacity.

    The sine function is a parameter: the model is about the buffer
    discipline and the time bookkeeping, not about trigonometry. */
module Simulation {
  import opened RollingBuffer

  /** `M_PI` (3.14159265358979323846) rounded to 16 significant digits; no
      property depends on its value, since `sin` is a parameter. */
  const Pi: real := 3.141592653589793

  /** The simulation parameters, the accumulated simulated time (seconds)
      and the window of recent samples, oldest first. */
  datatype Signal = Signal(frequency: real, amplitude: real, time: real, values: seq<real>)

  /** The sample the simulation produces at time `t`. */
  function Sample(amplitude: real, frequency: real, t: real, sin: real -> real): real {
    amplitude * sin(2.0 * Pi * frequency * t)
  }

  /** Advance by `dt`, sample at the NEW time, append, and evict the oldest
      sample when the window has grown past `capacity`. */
  function Step(s: Signal, dt: real, capacity: nat, sin: real -> real): Signal {
    var t := s.time + dt;
    s.(time := t, values := Push(s.values, Sample(s.amplitude, s.frequency, t, sin), capacity))
  }

  /** One step: the parameters are untouched, time advances by exactly
      `dt`, and exactly one sample (taken at the new time) is appended at the
      back. Below capacity nothing is dropped; at capacity exactly the
      oldest sample is dropped; so a window within capacity stays within
      capacity. */
  lemma {:induction false} StepSpec(s: Signal, dt: real, capacity: nat, sin: real -> real)
    ensures var r := Step(s, dt, capacity, sin);
      && r.frequency == s.frequency && r.amplitude == s.amplitude
      && r.time == s.time + dt
    ensures var v := Sample(s.amplitude, s.frequency, s.time + dt, sin);
      && (|s.values| < capacity ==> Step(s, dt, capacity, sin).values == s.values + [v])
      && (0 < |s.values| == capacity ==> Step(s, dt, capacity, sin).values == s.values[1..] + [v])
    ensures |s.values| <= capacity ==> |Step(s, dt, capacity, sin).values| <= capacity
    ensures var w := Step(s, dt, capacity, sin).values;
      0 < capacity ==> 0 < |w| && w[|w| - 1] == Sample(s.amplitude, s.frequency, s.time + dt, sin)
  {
    PushSpec(s.values, Sample(s.amplitude, s.frequency, s.time + dt, sin), capacity);
  }

  /** `n` steps with unchanged parameters. */
  function Run(s: Signal, dt: real, capacity: nat, sin: real -> real, n: nat): Signal {
    if n == 0 then s else Step(Run(s, dt, capacity, sin, n - 1), dt, capacity, sin)
  }

  /** The simulated time after `n` ticks of `dt` from `t`, accumulated one
      tick at a time as the program does. */
  function TimeAfter(t: real, dt: real, n: nat): real {
    if n == 0 then t else TimeAfter(t, dt, n - 1) + dt
  }

  /** Accumulating `n` ticks adds exactly `n · dt` (over the reals; the
      program's float accumulation drifts, which is not modelled). */
  lemma {:induction false} TimeAfterIsLinear(t: real, dt: real, n: nat)
    ensures TimeAfter(t, dt, n) == t + n as real * dt
  {
    if n > 0 {
      TimeAfterIsLinear(t, dt, n - 1);
      assert (n - 1) as real * dt + dt == n as real * dt;
    }
  }

  /** Reference definition: every sample that `n` steps of size `dt` from
      `s` generate, oldest first; step k (1-based) samples at
      `TimeAfter(s.time, dt, k)`. */
  function Samples(s: Signal, dt: real, sin: real -> real, n: nat): seq<real> {
    if n == 0 then []
    else Samples(s, dt, sin, n - 1) + [Sample(s.amplitude, s.frequency, TimeAfter(s.time, dt, n), sin)]
  }

  /** The generated samples are indexed by step: one per step, the k-th
      (0-based) taken after `k + 1` ticks. */
  lemma {:induction false} SamplesAt(s: Signal, dt: real, sin: real -> real, n: nat)
    ensures |Samples(s, dt, sin, n)| == n
    ensures forall k :: 0 <= k < n ==>
      Samples(s, dt, sin, n)[k] == Sample(s.amplitude, s.frequency, TimeAfter(s.time, dt, k + 1), sin)
  {
    if n > 0 {
      SamplesAt(s, dt, sin, n - 1);
    }
  }

  /** One step on a window holding the newest `capacity` values of a
      history holds the newest `capacity` values of that history extended by
      the sample taken at the new time `t`. */
  lemma {:induction false} StepWindow(p: Signal, h: seq<real>, dt: real, capacity: nat, sin: real -> real, t: real)
    requires p.values == LastN(h, capacity)
    requires p.time + dt == t
    ensures Step(p, dt, capacity, sin).values
         == LastN(h + [Sample(p.amplitude, p.frequency, t, sin)], capacity)
  {
    PushKeepsLastN(h, Sample(p.amplitude, p.frequency, t, sin), capacity);
  }

  /** `n` steps leave the parameters alone and advance time by `n` ticks. */
  lemma {:induction false} RunParams(s: Signal, dt: real, capacity: nat, sin: real -> real, n: nat)
    ensures var r := Run(s, dt, capacity, sin, n);
      && r.frequency == s.frequency && r.amplitude == s.amplitude
      && r.time == TimeAfter(s.time, dt, n)
  {
    if n > 0 {
      RunParams(s, dt, capacity, sin, n - 1);
    }
  }

  /** After `n` steps from a window within capacity, the window holds
      exactly the newest `capacity` values of the old window followed by all
      generated samples, in chronological order. */
  lemma {:induction false} RunWindow(s: Signal, dt: real, capacity: nat, sin: real -> real, n: nat)
    requires |s.values| <= capacity
    ensures Run(s, dt, capacity, sin, n).values == LastN(s.values + Samples(s, dt, sin, n), capacity)
  {
    if n == 0 {
      assert s.values + Samples(s, dt, sin, 0) == s.values;
      LastNOfShort(s.values, capacity);
    } else {
      var p := Run(s, dt, capacity, sin, n - 1);
      var h := s.values + Samples(s, dt, sin, n - 1);
      var t := TimeAfter(s.time, dt, n);
      RunWindow(s, dt, capacity, sin, n - 1);
      RunParams(s, dt, capacity, sin, n - 1);
      StepWindow(p, h, dt, capacity, sin, t);
      assert Run(s, dt, capacity, sin, n) == Step(p, dt, capacity, sin);
      assert s.values + Samples(s, dt, sin, n) == h + [Sample(p.amplitude, p.frequency, t, sin)];
    }
  }

  /** After `n` steps, time has advanced by exactly `n · dt`. */
  lemma RunTime(s: Signal, dt: real, capacity: nat, sin: real -> real, n: nat)
    ensures Run(s, dt, capacity, sin, n).time == s.time + n as real * dt
  {
    RunParams(s, dt, capacity, sin, n);
    TimeAfterIsLinear(s.time, dt, n);
  }

  /** Starting from an empty window, `n` steps leave `Min(n, capacity)`
      samples: the newest `capacity` of all samples generated so far. */
  lemma {:induction false} RunFromEmpty(s: Signal, dt: real, capacity: nat, sin: real -> real, n: nat)
    requires s.values == []
    ensures |Run(s, dt, capacity, sin, n).values| == Min(n, capacity)
    ensures Run(s, dt, capacity, sin, n).values == LastN(Samples(s, dt, sin, n), capacity)
  {
    RunWindow(s, dt, capacity, sin, n);
    SamplesAt(s, dt, sin, n);
    assert s.values + Samples(s, dt, sin, n) == Samples(s, dt, sin, n);
  }

  /** FIFO eviction: once `n >= capacity` steps have filled an initially
      empty window, its oldest sample is the one generated by step
      `n - capacity + 1` and its newest the one generated by step `n`. */
  lemma {:induction false} OldestAfterRun(s: Signal, dt: real, capacity: nat, sin: real -> real, n: nat)
    requires s.values == [] && 0 < capacity <= n
    ensures var w := Run(s, dt, capacity, sin, n).values;
      && |w| == capacity
      && w[0] == Sample(s.amplitude, s.frequency, TimeAfter(s.time, dt, n - capacity + 1), sin)
      && w[capacity - 1] == Sample(s.amplitude, s.frequency, TimeAfter(s.time, dt, n), sin)
  {
    RunFromEmpty(s, dt, capacity, sin, n);
    SamplesAt(s, dt, sin, n);
    var xs := Samples(s, dt, sin, n);
    var w := Run(s, dt, capacity, sin, n).values;
    assert w == xs[n - capacity..];
    assert w[0] == xs[n - capacity];
    assert w[capacity - 1] == xs[n - 1];
  }
}
