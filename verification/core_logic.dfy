/** The simulation controller of the program (`CoreLogic`): frequency,
    amplitude and frame rate that the GUI edits through mutable references,
    the accumulated simulated time, and a window of at most `MaxValues`
    samples. Each `Update` is one `Simulation.Step` with tick `1 / fps` and
    capacity `MaxValues`. */
module Core {
  import opened RollingBuffer
  import opened Simulation

  /** Capacity of the sample window. */
  const MaxValues: nat := 500

  /** Parameter defaults of a freshly constructed controller. */
  const DefaultFrequency: real := 1.0
  const DefaultAmplitude: real := 1.0
  const DefaultFps: real := 60.0

  /** `signal` holds frequency, amplitude, time and the sample window;
      `fps` sets the tick size `1 / fps`. */
  datatype CoreLogic = CoreLogic(signal: Signal, fps: real)

  /** The invariant every reachable controller keeps. */
  predicate Valid(c: CoreLogic) {
    |c.signal.values| <= MaxValues
  }

  /** The constructor: empty window, time zero, default parameters. */
  function Init(): (c: CoreLogic)
    ensures c.signal.values == [] && c.signal.time == 0.0
    ensures c.signal.frequency == 1.0 && c.signal.amplitude == 1.0 && c.fps == 60.0
    ensures Valid(c)
  {
    CoreLogic(Signal(DefaultFrequency, DefaultAmplitude, 0.0, []), DefaultFps)
  }

  /** One tick of `1 / fps` seconds. The frame rate only has to be non-zero
      (a negative one runs time backwards). */
  function Update(c: CoreLogic, sin: real -> real): (r: CoreLogic)
    requires c.fps != 0.0
    ensures r.fps == c.fps
    ensures r.signal.frequency == c.signal.frequency && r.signal.amplitude == c.signal.amplitude
    ensures r.signal.time == c.signal.time + 1.0 / c.fps
    ensures 0 < |r.signal.values|
    ensures r.signal.values[|r.signal.values| - 1]
         == Sample(c.signal.amplitude, c.signal.frequency, r.signal.time, sin)
    ensures |c.signal.values| < MaxValues ==>
      r.signal.values == c.signal.values + [r.signal.values[|r.signal.values| - 1]]
    ensures |c.signal.values| == MaxValues ==>
      r.signal.values == c.signal.values[1..] + [r.signal.values[|r.signal.values| - 1]]
    ensures Valid(c) ==> Valid(r)
  {
    StepSpec(c.signal, 1.0 / c.fps, MaxValues, sin);
    c.(signal := Step(c.signal, 1.0 / c.fps, MaxValues, sin))
  }

  /** `GetFrequency() = f` through the mutable reference: only the
      frequency changes. */
  function SetFrequency(c: CoreLogic, f: real): (r: CoreLogic)
    ensures r.signal.frequency == f
    ensures r.signal.amplitude == c.signal.amplitude && r.signal.time == c.signal.time
    ensures r.signal.values == c.signal.values && r.fps == c.fps
  {
    c.(signal := c.signal.(frequency := f))
  }

  /** `GetAmplitude() = a`: only the amplitude changes. */
  function SetAmplitude(c: CoreLogic, a: real): (r: CoreLogic)
    ensures r.signal.amplitude == a
    ensures r.signal.frequency == c.signal.frequency && r.signal.time == c.signal.time
    ensures r.signal.values == c.signal.values && r.fps == c.fps
  {
    c.(signal := c.signal.(amplitude := a))
  }

  /** `GetFps() = x`: only the frame rate changes. */
  function SetFps(c: CoreLogic, x: real): (r: CoreLogic)
    ensures r.fps == x && r.signal == c.signal
  {
    c.(fps := x)
  }

  /** `GetSineWaveValues()`: a copy of the window, oldest first, never
      longer than `MaxValues` in a valid controller. */
  function GetSineWaveValues(c: CoreLogic): (r: seq<real>)
    ensures r == c.signal.values
    ensures Valid(c) ==> |r| <= MaxValues
  {
    c.signal.values
  }

  /** What can happen to the controller between two frames: a tick (when
      the GUI is not paused), or an edit of one parameter. */
  datatype Event = Tick | ChangeFrequency(f: real) | ChangeAmplitude(a: real) | ChangeFps(x: real)

  /** Every tick of `events`, replayed from frame rate `fps`, happens at a
      non-zero frame rate. */
  predicate Runnable(fps: real, events: seq<Event>)
    decreases |events|
  {
    |events| == 0 ||
    match events[0]
    case Tick => fps != 0.0 && Runnable(fps, events[1..])
    case ChangeFps(x) => Runnable(x, events[1..])
    case _ => Runnable(fps, events[1..])
  }

  function Apply(c: CoreLogic, e: Event, sin: real -> real): CoreLogic
    requires e.Tick? ==> c.fps != 0.0
  {
    match e
    case Tick => Update(c, sin)
    case ChangeFrequency(f) => SetFrequency(c, f)
    case ChangeAmplitude(a) => SetAmplitude(c, a)
    case ChangeFps(x) => SetFps(c, x)
  }

  /** The controller after a sequence of events, as the main loop applies
      them: one `Update` per unpaused frame, and whatever edits the GUI made
      in between. Without a tick the window is untouched. */
  function Replay(c: CoreLogic, events: seq<Event>, sin: real -> real): (r: CoreLogic)
    requires Runnable(c.fps, events)
    ensures TickCount(events) == 0 ==> r.signal.values == c.signal.values && r.signal.time == c.signal.time
    decreases |events|
  {
    if |events| == 0 then c
    else Replay(Apply(c, events[0], sin), events[1..], sin)
  }

  /** Reference definition, independent of the window: every sample the
      ticks of `events` produce, oldest first, with no bound on how many are
      kept. A tick samples the current parameters at the current time plus
      `1 / fps`; an edit changes the parameters for later ticks. */
  function Emitted(c: CoreLogic, events: seq<Event>, sin: real -> real): seq<real>
    requires Runnable(c.fps, events)
    decreases |events|
  {
    if |events| == 0 then []
    else
      var next := Apply(c, events[0], sin);
      var produced :=
        if events[0].Tick?
        then [Sample(c.signal.amplitude, c.signal.frequency, c.signal.time + 1.0 / c.fps, sin)]
        else [];
      produced + Emitted(next, events[1..], sin)
  }

  /** The number of ticks in `events`. */
  function TickCount(events: seq<Event>): nat {
    if |events| == 0 then 0 else (if events[0].Tick? then 1 else 0) + TickCount(events[1..])
  }

  /** One sample per tick, none per parameter edit. */
  lemma {:induction false} EmittedCount(c: CoreLogic, events: seq<Event>, sin: real -> real)
    requires Runnable(c.fps, events)
    ensures |Emitted(c, events, sin)| == TickCount(events)
    decreases |events|
  {
    if |events| > 0 {
      EmittedCount(Apply(c, events[0], sin), events[1..], sin);
    }
  }

  /** Whatever the parameters do between ticks, the window is always the
      newest `MaxValues` entries of the full history: the samples that were
      in it at the start followed by everything emitted since, in order.
      Samples produced under different parameter settings sit side by side;
      nothing is cleared when a parameter changes. */
  lemma {:induction false} ReplayWindow(c: CoreLogic, h: seq<real>, events: seq<Event>, sin: real -> real)
    requires Runnable(c.fps, events)
    requires c.signal.values == LastN(h, MaxValues)
    ensures Replay(c, events, sin).signal.values == LastN(h + Emitted(c, events, sin), MaxValues)
    decreases |events|
  {
    if |events| == 0 {
      assert h + Emitted(c, events, sin) == h;
    } else {
      var next := Apply(c, events[0], sin);
      if events[0].Tick? {
        var v := next.signal.values[|next.signal.values| - 1];
        assert next.signal.values == LastN(h + [v], MaxValues) by {
          StepSpec(c.signal, 1.0 / c.fps, MaxValues, sin);
          StepWindow(c.signal, h, 1.0 / c.fps, MaxValues, sin, c.signal.time + 1.0 / c.fps);
        }
        ReplayWindow(next, h + [v], events[1..], sin);
        assert h + Emitted(c, events, sin) == (h + [v]) + Emitted(next, events[1..], sin);
      } else {
        ReplayWindow(next, h, events[1..], sin);
        assert Emitted(c, events, sin) == Emitted(next, events[1..], sin);
      }
    }
  }

  /** From construction, any interleaving of ticks and parameter edits
      leaves exactly `Min(ticks, MaxValues)` samples: the newest ones
      generated, in chronological order. */
  lemma {:induction false} WindowFromInit(events: seq<Event>, sin: real -> real)
    requires Runnable(DefaultFps, events)
    ensures Replay(Init(), events, sin).signal.values == LastN(Emitted(Init(), events, sin), MaxValues)
    ensures |Replay(Init(), events, sin).signal.values| == Min(TickCount(events), MaxValues)
  {
    ReplayWindow(Init(), [], events, sin);
    assert [] + Emitted(Init(), events, sin) == Emitted(Init(), events, sin);
    EmittedCount(Init(), events, sin);
    LastNIsSuffix(Emitted(Init(), events, sin), MaxValues);
  }

  /** `Update` never breaks the window bound, and edits never touch the
      window, so every replay from a valid controller stays valid. */
  lemma {:induction false} ReplayKeepsValid(c: CoreLogic, events: seq<Event>, sin: real -> real)
    requires Runnable(c.fps, events)
    requires Valid(c)
    ensures Valid(Replay(c, events, sin))
    decreases |events|
  {
    if |events| > 0 {
      ReplayKeepsValid(Apply(c, events[0], sin), events[1..], sin);
    }
  }

  /** `n` updates with no edit in between. */
  function UpdateN(c: CoreLogic, sin: real -> real, n: nat): (r: CoreLogic)
    requires c.fps != 0.0
    ensures r.fps == c.fps
  {
    if n == 0 then c else Update(UpdateN(c, sin, n - 1), sin)
  }

  /** `n` updates are `n` simulation steps of `1 / fps` into a window of
      `MaxValues`. */
  lemma {:induction false} UpdateNIsRun(c: CoreLogic, sin: real -> real, n: nat)
    requires c.fps != 0.0
    ensures UpdateN(c, sin, n).signal == Run(c.signal, 1.0 / c.fps, MaxValues, sin, n)
  {
    if n > 0 {
      UpdateNIsRun(c, sin, n - 1);
    }
  }

  /** `n` updates from construction at the default 60 frames per second
      advance time to `n / 60` and leave `Min(n, 500)` samples. */
  lemma {:induction false} UpdatesFromInit(sin: real -> real, n: nat)
    ensures UpdateN(Init(), sin, n).signal.time == n as real / 60.0
    ensures |UpdateN(Init(), sin, n).signal.values| == Min(n, MaxValues)
  {
    var s := Init().signal;
    UpdateNIsRun(Init(), sin, n);
    RunTime(s, 1.0 / 60.0, MaxValues, sin, n);
    RunFromEmpty(s, 1.0 / 60.0, MaxValues, sin, n);
  }

  /** FIFO from construction: once 500 or more updates have filled the
      window, its oldest sample is the one generated by update `n - 499`,
      taken at time `(n - 499) / 60`; after 600 updates, the 101st. */
  lemma {:induction false} OldestFromInit(sin: real -> real, n: nat)
    requires MaxValues <= n
    ensures |UpdateN(Init(), sin, n).signal.values| == MaxValues
    ensures UpdateN(Init(), sin, n).signal.values[0] == Sample(1.0, 1.0, (n - 499) as real / 60.0, sin)
  {
    var s := Init().signal;
    var dt := 1.0 / 60.0;
    UpdateNIsRun(Init(), sin, n);
    OldestAfterRun(s, dt, MaxValues, sin, n);
    assert TimeAfter(0.0, dt, n - 499) == (n - 499) as real / 60.0 by {
      TimeAfterIsLinear(0.0, dt, n - 499);
    }
  }
}
