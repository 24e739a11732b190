/**
  Timing of the two PWM outputs over whole runs. The ghost clock counts ticks without wrapping and
  knows the period in progress, the duties latched at its start, and how long interrupts have waited
  to be served. The handler programs its distances from the counter as it reads it, so that every wait
  puts off all that follows.
*/
module VvtPwmTiming {
  import opened Machine
  import opened FixedPoint
  import opened VvtPwm

  /** `offset` is how far the period has got, `delay` the sum of all waits so far. */
  datatype Clock = Clock(
    time: int,
    period: nat,
    offset: nat,
    delay: nat,
    duty1: nat,
    duty2: nat,
    counter: uint16)
  {
    /** The next instant of the period at which an output falls, or the end of the period. */
    function NextEdge(max: nat): nat {
      if offset < duty1 && (duty1 <= duty2 || duty2 <= offset) then duty1
      else if offset < duty2 then duty2
      else max
    }
  }

  datatype Duties = Duties(duty1: uint16, duty2: uint16)

  predicate BelowFull(max: uint16, d: Duties) { d.duty1 < max && d.duty2 < max }

  /** An interrupt: the duties as last rewritten, and the ticks it has to wait to be served. */
  datatype Service = Service(duties: Duties, latency: nat)

  /** The clock at the interrupt after the next. A period that has ended gives way to one with new duties. */
  function Advance(max: uint16, k: Clock, e: Service): Clock {
    var edge := k.NextEdge(max);
    var ticks := edge - k.offset;
    var k' := k.(time := k.time + ticks + e.latency, delay := k.delay + e.latency,
                 counter := After(After(k.counter, ticks), e.latency));
    if edge == max
    then k'.(period := k.period + 1, offset := 0, duty1 := e.duties.duty1, duty2 := e.duties.duty2)
    else k'.(offset := edge)
  }

  /** Duties are rewritten, the timer reaches the compare value, and the interrupt is served. */
  function NextInterrupt(max: uint16, s: State, e: Service): State {
    InterruptStep(s.(value1 := e.duties.duty1, value2 := e.duties.duty2), max, After(s.compare, e.latency))
  }

  /**
    Just after an interrupt: each output is on exactly while its latched duty has not run out, and
    the timer is set to the next edge of the period in progress.
  */
  predicate OnTime(max: uint16, s: State, k: Clock) {
    && k.time == k.period * max + k.offset + k.delay
    && k.offset < max && k.duty1 < max && k.duty2 < max
    && s.on1 == s.pin1 == (k.offset < k.duty1)
    && s.on2 == s.pin2 == (k.offset < k.duty2)
    && !s.max1 && !s.max2
    && (s.on1 || s.on2 ==> s.cur1 == k.duty1 && s.cur2 == k.duty2)
    && (s.on1 && s.on2 ==>
          s.next == if k.duty1 < k.duty2 then First else if k.duty1 == k.duty2 then BothOutputs else Second)
    && (s.on1 && !s.on2 ==> s.next == First)
    && (!s.on1 && s.on2 ==> s.next == Second)
    && s.compare == After(k.counter, k.NextEdge(max) - k.offset)
  }

  lemma PeriodBegins(max: uint16, s: State, k: Clock, e: Service)
    requires OnTime(max, s, k) && BelowFull(max, e.duties) && k.NextEdge(max) == max
    ensures OnTime(max, NextInterrupt(max, s, e), Advance(max, k, e))
  {
    assert (k.period + 1) * max == k.period * max + max;
  }

  lemma OutputEnds(max: uint16, s: State, k: Clock, e: Service)
    requires OnTime(max, s, k) && BelowFull(max, e.duties) && k.NextEdge(max) != max
    ensures OnTime(max, NextInterrupt(max, s, e), Advance(max, k, e))
  {
  }

  /** The distance programmed is the one to the next edge and fits the 16-bit timer. */
  lemma DistanceIsExact(max: uint16, s: State, k: Clock)
    requires OnTime(max, s, k)
    ensures 1 <= TicksUntil(k.counter, s.compare) <= 0xFFFF
    ensures TicksUntil(k.counter, s.compare) == k.NextEdge(max) - k.offset
  {
  }

  lemma StepOnTime(max: uint16, s: State, k: Clock, e: Service)
    requires OnTime(max, s, k) && BelowFull(max, e.duties)
    ensures OnTime(max, NextInterrupt(max, s, e), Advance(max, k, e))
    ensures Advance(max, k, e).time == k.time + TicksUntil(k.counter, s.compare) + e.latency
    ensures Advance(max, k, e).counter == After(s.compare, e.latency)
  {
    DistanceIsExact(max, s, k);
    if k.NextEdge(max) == max { PeriodBegins(max, s, k, e); } else { OutputEnds(max, s, k, e); }
  }

  /** The first interrupt of an idle pair of outputs begins period 0. */
  lemma FirstInterrupt(max: uint16, s: State, counter: uint16)
    requires s.value1 < max && s.value2 < max
    requires !s.on1 && !s.on2 && !s.max1 && !s.max2 && !s.pin1 && !s.pin2
    ensures OnTime(max, InterruptStep(s, max, counter), Clock(0, 0, 0, 0, s.value1, s.value2, counter))
  {
  }

  // ------------------------------------------------------------------ whole runs

  function RunStates(max: uint16, s: State, es: seq<Service>): State
    decreases |es|
  {
    if es == [] then s else RunStates(max, NextInterrupt(max, s, es[0]), es[1..])
  }

  function RunClock(max: uint16, k: Clock, es: seq<Service>): Clock
    decreases |es|
  {
    if es == [] then k else RunClock(max, Advance(max, k, es[0]), es[1..])
  }

  function Waited(es: seq<Service>): nat
    decreases |es|
  {
    if es == [] then 0 else es[0].latency + Waited(es[1..])
  }

  /**
    However the duties are rewritten between interrupts, and however long each has to wait, over any
    number of interrupts: what is late is late by the sum of the waits and nothing else. So periods
    begin every `max` ticks and the waits in between, and in each of them an output is on for the ticks
    latched at its start and the waits in between.
  */
  lemma {:induction false} EveryPeriodIsExact(max: uint16, s: State, k: Clock, es: seq<Service>)
    requires OnTime(max, s, k) && (forall e | e in es :: BelowFull(max, e.duties))
    ensures OnTime(max, RunStates(max, s, es), RunClock(max, k, es))
    ensures RunClock(max, k, es).delay == k.delay + Waited(es)
    decreases |es|
  {
    if es != [] {
      StepOnTime(max, s, k, es[0]);
      EveryPeriodIsExact(max, NextInterrupt(max, s, es[0]), Advance(max, k, es[0]), es[1..]);
    }
  }

  lemma PeriodsApart(max: int, p: int, q: int)
    ensures q * max - p * max == (q - p) * max
  {
  }

  /** Between the starts of any two periods lie the periods in between and the waits in between. */
  lemma PeriodsAreMaxAndWaits(max: uint16, s: State, k: Clock, es: seq<Service>)
    requires OnTime(max, s, k) && (forall e | e in es :: BelowFull(max, e.duties))
    requires k.offset == 0 && RunClock(max, k, es).offset == 0
    ensures var k' := RunClock(max, k, es);
      k'.time - k.time == (k'.period - k.period) * max + Waited(es)
  {
    EveryPeriodIsExact(max, s, k, es);
    PeriodsApart(max, k.period, RunClock(max, k, es).period);
  }

  /** How far the period has got at time `t`: it stands still, just before the next edge, while that waits. */
  function Progress(max: uint16, k: Clock, t: int): int {
    if t - k.time < k.NextEdge(max) - k.offset then k.offset + (t - k.time) else k.NextEdge(max) - 1
  }

  /**
    The waveform between two interrupts: at every instant until the next one is served, an output is on
    exactly when the period has got less far than its latched duty. So it is on in one block.
  */
  lemma Waveform(max: uint16, s: State, k: Clock, e: Service, t: int)
    requires OnTime(max, s, k) && k.time <= t < k.time + TicksUntil(k.counter, s.compare) + e.latency
    ensures Progress(max, k, t) < max
    ensures s.pin1 <==> Progress(max, k, t) < k.duty1
    ensures s.pin2 <==> Progress(max, k, t) < k.duty2
    ensures e.latency == 0 ==> Progress(max, k, t) == t - k.period * max - k.delay
  {
    DistanceIsExact(max, s, k);
  }

  lemma FullDutyStep(max: uint16, s: State, e: Service)
    ensures s.on1 && s.pin1 && e.duties.duty1 >= max ==> NextInterrupt(max, s, e).on1 && NextInterrupt(max, s, e).pin1
    ensures s.on2 && s.pin2 && e.duties.duty2 >= max ==> NextInterrupt(max, s, e).on2 && NextInterrupt(max, s, e).pin2
  {
  }

  /** An output whose duty is 100% at every interrupt stays on, however the other one is driven. */
  lemma {:induction false} FullDutyStaysOn(max: uint16, s: State, es: seq<Service>)
    ensures s.on1 && s.pin1 && (forall e | e in es :: e.duties.duty1 >= max) ==>
              RunStates(max, s, es).on1 && RunStates(max, s, es).pin1
    ensures s.on2 && s.pin2 && (forall e | e in es :: e.duties.duty2 >= max) ==>
              RunStates(max, s, es).on2 && RunStates(max, s, es).pin2
    decreases |es|
  {
    if es != [] {
      var s1, rest := NextInterrupt(max, s, es[0]), es[1..];
      assert es[0] in es && forall e | e in rest :: e in es;
      FullDutyStep(max, s, es[0]);
      FullDutyStaysOn(max, s1, rest);
      assert RunStates(max, s, es) == RunStates(max, s1, rest);
    }
  }

  lemma ZeroDutyStep(max: uint16, s: State, e: Service)
    requires max > 0
    ensures !s.on1 && !s.pin1 && e.duties.duty1 == 0 ==>
              !NextInterrupt(max, s, e).on1 && !NextInterrupt(max, s, e).pin1
    ensures !s.on2 && !s.pin2 && e.duties.duty2 == 0 ==>
              !NextInterrupt(max, s, e).on2 && !NextInterrupt(max, s, e).pin2
  {
  }

  /** An output without a duty is never switched on. */
  lemma {:induction false} ZeroDutyStaysOff(max: uint16, s: State, es: seq<Service>)
    requires max > 0
    ensures !s.on1 && !s.pin1 && (forall e | e in es :: e.duties.duty1 == 0) ==>
              !RunStates(max, s, es).on1 && !RunStates(max, s, es).pin1
    ensures !s.on2 && !s.pin2 && (forall e | e in es :: e.duties.duty2 == 0) ==>
              !RunStates(max, s, es).on2 && !RunStates(max, s, es).pin2
    decreases |es|
  {
    if es != [] {
      var s1, rest := NextInterrupt(max, s, es[0]), es[1..];
      assert es[0] in es && forall e | e in rest :: e in es;
      ZeroDutyStep(max, s, es[0]);
      ZeroDutyStaysOff(max, s1, rest);
      assert RunStates(max, s, es) == RunStates(max, s1, rest);
    }
  }

  /** Some output is on and has not been found at 100% in this period. */
  predicate InPulse(s: State) { (s.on1 && !s.max1) || (s.on2 && !s.max2) }

  /**
    The event that ends a pulse leaves an output on and marks it if its duty has become 100%, and switches
    it off and clears the mark otherwise. The event for one output leaves the other alone.
  */
  lemma PulseEndsUnlessFull(max: uint16, s: State, counter: uint16)
    requires InPulse(s)
    ensures var s' := InterruptStep(s, max, counter);
      && (if s.next.Second? then s'.on1 == s.on1 && s'.pin1 == s.pin1 && s'.max1 == s.max1
          else if s.value1 >= max then s'.on1 == s.on1 && s'.pin1 == s.pin1 && s'.max1
          else !s'.on1 && !s'.pin1 && !s'.max1)
      && (if s.next.First? then s'.on2 == s.on2 && s'.pin2 == s.pin2 && s'.max2 == s.max2
          else if s.value2 >= max then s'.on2 == s.on2 && s'.pin2 == s.pin2 && s'.max2
          else !s'.on2 && !s'.pin2 && !s'.max2)
      && (s.next.First? && !s.on2 ==> s'.next.BothOutputs?) && (s.next.Second? && !s.on1 ==> s'.next.BothOutputs?)
  {
  }

  /** Where both pulses end together, the rest of the period is counted from an output that is not at 100%. */
  lemma RestAfterBoth(max: uint16, s: State, counter: uint16)
    requires InPulse(s) && s.next.BothOutputs?
    ensures var s' := InterruptStep(s, max, counter);
      && (s.value2 < max ==> s'.compare == After(counter, max - s.cur2))
      && (s.value2 >= max && s.value1 < max ==> s'.compare == After(counter, max - s.cur1))
      && (s.value2 >= max && s.value1 >= max ==> s'.compare == s.compare)
  {
  }

  /** The coming event switches off the last of the outputs that are on. */
  predicate EndsLast(max: uint16, s: State) {
    && !s.max1 && !s.max2
    && match s.next
       case First => s.on1 && !s.on2
       case Second => s.on2 && !s.on1
       case BothOutputs => s.on1 && s.on2 && s.cur1 == s.cur2 && (s.value1 < max || s.value2 < max)
  }

  function EndingDuty(s: State): uint16 { if s.next.Second? then s.cur2 else s.cur1 }

  /**
    Why the duty must stay below `max`. When the time of the last outputs is up, the next compare
    event lies in the coming 65535 ticks unless their latched duty is the whole period: then the
    distance programmed is zero and the timer has to go all the way round.
  */
  lemma FullDutyStallsIff(max: uint16, s: State, counter: uint16)
    requires EndsLast(max, s) && EndingDuty(s) <= max
    ensures TicksUntil(counter, InterruptStep(s, max, counter).compare) == TWO16 <==> EndingDuty(s) == max
  {
  }

  /** A duty in half percent, as ticks of the period, rounded to nearest. */
  function HalfPercentage(duty: uint8, max: uint16): uint16
    requires duty <= 200
  {
    DutyProduct(duty, max);
    (duty * max + 100) / 200
  }

  lemma DutyProduct(duty: uint8, max: uint16)
    requires duty <= 200
    ensures 0 <= duty * max <= 200 * 65535
  {
    ScaleMonotone(max, duty, 200);
  }

  /** A duty is a legal number of ticks exactly when what is missing from 100% is worth more than half a tick. */
  lemma DutyBelowFullIff(duty: uint8, max: uint16)
    requires duty <= 200
    ensures HalfPercentage(duty, max) < max <==> (200 - duty) * max > 100
  {
    assert (200 - duty) * max == 200 * max - duty * max;
  }
}
