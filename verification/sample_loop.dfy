/**
  The firmware's main loop as a state machine. One cycle toggles the LED,
  reads the Z axis through `mlx_read_data` when the sensor was initialised,
  folds the reading into the smoothed value (taking the first one as is) and
  emits one line on the serial port. The bus is an input: each cycle is
  given the outcomes of its start-measurement and read-measurement transfers.
 */
module SampleLoop {
  import opened Options
  import opened FixedWidth
  import opened Reals
  import opened DecimalText
  import opened Mlx90393
  import opened SignalChain

  /** The globals `mlx_initialized`, `first_mag_reading`, `smoothed_z` and the local `led_state`. */
  datatype LoopState = LoopState(initialized: bool, firstMagReading: bool, smoothedZ: real, ledState: bool)

  /** The state on entering the loop, after `mlx_init` ran with the given replies. */
  function Boot(exit: StatusReply, reset: StatusReply): (st: LoopState)
    ensures st.initialized <==> exit.Some? && exit.value < 4 && reset.Some? && 4 <= reset.value < 8
    ensures st.firstMagReading && st.smoothedZ == 0.0 && !st.ledState
  {
    LoopState(Init(exit, reset).initialized, true, 0.0, false)
  }

  /** The outcomes of the two transfers `mlx_read_data` may perform in one cycle. */
  datatype Bus = Bus(start: StatusReply, read: MeasurementReply)

  predicate WellFormedBus(bus: Bus)
  {
    WellFormedMeasurement(bus.read)
  }

  /** The device accepted the start command and returned a measurement with status code 0. */
  predicate ReadSucceeds(bus: Bus)
    requires WellFormedBus(bus)
  {
    && bus.start.Some? && (bus.start.value / 4 == 0 || bus.start.value / 4 == 8)
    && bus.read.Some? && bus.read.value[0] / 4 == 0
  }

  /** The field in mT that a successful read reports, from data bytes 5 and 6. */
  function FieldRead(bus: Bus): real
    requires WellFormedBus(bus) && ReadSucceeds(bus)
  {
    FieldMilliTesla(FirmwareConfig, DecodeZ(FirmwareConfig.resZ, bus.read.value[5], bus.read.value[6]))
  }

  /** The three kinds of line the loop prints. */
  datatype Line = Reading(mT: real) | ReadError | NotInitialized

  /** One cycle: the LED level written, the line printed, the commands sent, and the state after. */
  datatype Cycle = Cycle(led: bool, line: Line, sent: seq<Command>, next: LoopState)

  function Step(st: LoopState, bus: Bus): (c: Cycle)
    requires WellFormedBus(bus)
    ensures c.led == st.ledState && c.next.ledState == !st.ledState
    ensures c.next.initialized == st.initialized
    ensures !st.initialized ==> c.line == NotInitialized && c.sent == [] && c.next == st.(ledState := !st.ledState)
    ensures st.initialized ==> |c.sent| > 0 && c.sent[0] == StartMeasurement
    ensures st.initialized && !ReadSucceeds(bus) ==>
      c.line == ReadError && c.next == st.(ledState := !st.ledState)
    ensures st.initialized && ReadSucceeds(bus) ==>
      && c.sent == [StartMeasurement, ReadMeasurement]
      && !c.next.firstMagReading
      && c.line == Reading(c.next.smoothedZ)
      && c.next.smoothedZ == (if st.firstMagReading then FieldRead(bus) else Smooth(FieldRead(bus), FilterVal, st.smoothedZ))
  {
    var led := st.ledState;
    var st := st.(ledState := !st.ledState);
    if !st.initialized then
      Cycle(led, NotInitialized, [], st)
    else
      var t := ReadData(FirmwareConfig, bus.start, bus.read, 0.0);
      if !t.ok then
        Cycle(led, ReadError, t.sent, st)
      else
        var smoothed := if st.firstMagReading then t.z else Smooth(t.z, FilterVal, st.smoothedZ);
        Cycle(led, Reading(smoothed), t.sent, st.(firstMagReading := false, smoothedZ := smoothed))
  }

  /** A cycle never makes the smoothed value negative: fields are clamped and smoothing stays between its inputs. */
  lemma StepKeepsSmoothedNonNegative(st: LoopState, bus: Bus)
    requires WellFormedBus(bus)
    requires st.smoothedZ >= 0.0
    ensures Step(st, bus).next.smoothedZ >= 0.0
    ensures Step(st, bus).line.Reading? ==> Step(st, bus).line.mT >= 0.0
  {
    if st.initialized && ReadSucceeds(bus) && !st.firstMagReading {
      var z := FieldRead(bus);
      SmoothBetween(z, FilterVal, st.smoothedZ);
    }
  }

  predicate AllWellFormed(buses: seq<Bus>)
  {
    forall i :: 0 <= i < |buses| ==> WellFormedBus(buses[i])
  }

  /** The loop run for one cycle per bus outcome: the final state and the lines printed. */
  function Run(st: LoopState, buses: seq<Bus>): (r: (LoopState, seq<Line>))
    requires AllWellFormed(buses)
    ensures |r.1| == |buses|
    ensures r.0.initialized == st.initialized
    decreases |buses|
  {
    if |buses| == 0 then (st, [])
    else
      var c := Step(st, buses[0]);
      var rest := Run(c.next, buses[1..]);
      (rest.0, [c.line] + rest.1)
  }

  /** Starting from a non-negative smoothed value, every printed reading and the final value are non-negative. */
  lemma {:induction false} RunKeepsSmoothedNonNegative(st: LoopState, buses: seq<Bus>)
    requires AllWellFormed(buses)
    requires st.smoothedZ >= 0.0
    ensures Run(st, buses).0.smoothedZ >= 0.0
    ensures forall i :: 0 <= i < |buses| && Run(st, buses).1[i].Reading? ==> Run(st, buses).1[i].mT >= 0.0
    decreases |buses|
  {
    if |buses| > 0 {
      StepKeepsSmoothedNonNegative(st, buses[0]);
      RunKeepsSmoothedNonNegative(Step(st, buses[0]).next, buses[1..]);
    }
  }

  /** The LED level after `n` cycles is the initial one flipped `n` times. */
  lemma {:induction false} RunTogglesLed(st: LoopState, buses: seq<Bus>)
    requires AllWellFormed(buses)
    ensures Run(st, buses).0.ledState == (if |buses| % 2 == 0 then st.ledState else !st.ledState)
    decreases |buses|
  {
    if |buses| > 0 {
      RunTogglesLed(Step(st, buses[0]).next, buses[1..]);
    }
  }

  /** A sensor that failed to initialise prints only "Sensor not initialized" and never changes its readings. */
  lemma {:induction false} UninitializedRun(st: LoopState, buses: seq<Bus>)
    requires AllWellFormed(buses)
    requires !st.initialized
    ensures forall i :: 0 <= i < |buses| ==> Run(st, buses).1[i] == NotInitialized
    ensures Run(st, buses).0.firstMagReading == st.firstMagReading
    ensures Run(st, buses).0.smoothedZ == st.smoothedZ
    decreases |buses|
  {
    if |buses| > 0 {
      UninitializedRun(Step(st, buses[0]).next, buses[1..]);
    }
  }

  /**
    Under a steady field every cycle past the first sample is one more
    smoothing step towards it, so by `SignalChain.SmoothConverges` the gap to
    the field shrinks by the factor 0.4 per cycle.
   */
  lemma {:induction false} SteadyFieldRun(st: LoopState, buses: seq<Bus>, z: real)
    requires AllWellFormed(buses)
    requires st.initialized && !st.firstMagReading
    requires forall i :: 0 <= i < |buses| ==> ReadSucceeds(buses[i]) && FieldRead(buses[i]) == z
    ensures Run(st, buses).0.smoothedZ == SmoothRepeatedly(z, FilterVal, st.smoothedZ, |buses|)
    decreases |buses|
  {
    if |buses| > 0 {
      var next := Step(st, buses[0]).next;
      var rest := buses[1..];
      SteadyFieldRun(next, rest, z);
      SmoothRepeatedlyShift(z, FilterVal, st.smoothedZ, |rest|);
    }
  }

  /** Smoothing once and then `n` more times is smoothing `n + 1` times. */
  lemma {:induction false} SmoothRepeatedlyShift(data: real, a: real, s: real, n: nat)
    ensures SmoothRepeatedly(data, a, Smooth(data, a, s), n) == SmoothRepeatedly(data, a, s, n + 1)
  {
    if n > 0 {
      SmoothRepeatedlyShift(data, a, s, n - 1);
    }
  }

  /** `%.3f` rounding, abstracted as the nearest number of thousandths (ties upwards). */
  function Thousandths(x: real): (k: int)
    ensures x * 1000.0 - 0.5 < k as real <= x * 1000.0 + 0.5
    ensures x >= 0.0 ==> k >= 0
  {
    (x * 1000.0 + 0.5).Floor
  }

  /** The text the loop prints for a line, without the trailing newline. */
  function Render(line: Line): string
  {
    match line
    case Reading(mT) => "Z-axis(M1): " + FixedThree(Thousandths(mT)) + " mT"
    case ReadError => "Z-axis(M1): ERROR"
    case NotInitialized => "Sensor not initialized"
  }
}
