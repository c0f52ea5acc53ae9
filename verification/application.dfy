/** The older, self-contained simulation loop of `Application`: a fixed
    tick of 0.016 s and a window of at most 100 samples. Each `update` is
    one `Simulation.Step` with those two constants. */
module App {
  import opened RollingBuffer
  import opened Simulation

  /** Capacity of the sample window. */
  const MaxValues: nat := 100

  /** The fixed tick, in seconds: one frame at roughly 60 frames per second. */
  const TickSeconds: real := 0.016

  /** The simulation part of the application object; the window, renderer
      and running flag belong to the windowing layer. */
  datatype Application = Application(signal: Signal)

  predicate Valid(a: Application) {
    |a.signal.values| <= MaxValues
  }

  /** The constructor: frequency 1, amplitude 1, time 0, no samples (only
      room for `MaxValues` is reserved). */
  function Init(): (a: Application)
    ensures a.signal.values == [] && a.signal.time == 0.0
    ensures a.signal.frequency == 1.0 && a.signal.amplitude == 1.0
    ensures Valid(a)
  {
    Application(Signal(1.0, 1.0, 0.0, []))
  }

  /** One `update()`: time advances by exactly 0.016 s, one sample is
      appended, and the oldest is dropped when the window is full. */
  function Update(a: Application, sin: real -> real): (r: Application)
    ensures r.signal.frequency == a.signal.frequency && r.signal.amplitude == a.signal.amplitude
    ensures r.signal.time == a.signal.time + 0.016
    ensures 0 < |r.signal.values|
    ensures r.signal.values[|r.signal.values| - 1]
         == Sample(a.signal.amplitude, a.signal.frequency, r.signal.time, sin)
    ensures |a.signal.values| < MaxValues ==>
      r.signal.values == a.signal.values + [r.signal.values[|r.signal.values| - 1]]
    ensures |a.signal.values| == MaxValues ==>
      r.signal.values == a.signal.values[1..] + [r.signal.values[|r.signal.values| - 1]]
    ensures Valid(a) ==> Valid(r)
  {
    StepSpec(a.signal, TickSeconds, MaxValues, sin);
    a.(signal := Step(a.signal, TickSeconds, MaxValues, sin))
  }

  /** `n` calls of `update()`, as the main loop makes them. */
  function UpdateN(a: Application, sin: real -> real, n: nat): (r: Application)
    ensures r.signal == Run(a.signal, TickSeconds, MaxValues, sin, n)
  {
    if n == 0 then a else Update(UpdateN(a, sin, n - 1), sin)
  }

  /** `n` updates from construction advance time to `n · 0.016` and leave
      `Min(n, 100)` samples. */
  lemma {:induction false} UpdatesFromInit(sin: real -> real, n: nat)
    ensures UpdateN(Init(), sin, n).signal.time == n as real * 0.016
    ensures |UpdateN(Init(), sin, n).signal.values| == Min(n, MaxValues)
  {
    RunTime(Init().signal, TickSeconds, MaxValues, sin, n);
    RunFromEmpty(Init().signal, TickSeconds, MaxValues, sin, n);
  }

  /** FIFO from construction: after `n >= 100` updates the oldest sample is
      the one generated by update `n - 99` and the newest the one generated
      by update `n`. */
  lemma {:induction false} OldestFromInit(sin: real -> real, n: nat)
    requires MaxValues <= n
    ensures |UpdateN(Init(), sin, n).signal.values| == MaxValues
    ensures UpdateN(Init(), sin, n).signal.values[0]
         == Sample(1.0, 1.0, (n - 99) as real * 0.016, sin)
    ensures UpdateN(Init(), sin, n).signal.values[MaxValues - 1]
         == Sample(1.0, 1.0, n as real * 0.016, sin)
  {
    var s := Init().signal;
    OldestAfterRun(s, TickSeconds, MaxValues, sin, n);
    assert TimeAfter(0.0, TickSeconds, n - 99) == (n - 99) as real * 0.016 by {
      TimeAfterIsLinear(0.0, TickSeconds, n - 99);
    }
    assert TimeAfter(0.0, TickSeconds, n) == n as real * 0.016 by {
      TimeAfterIsLinear(0.0, TickSeconds, n);
    }
  }
}
