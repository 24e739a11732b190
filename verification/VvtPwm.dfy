/** The two PWM outputs driven by one timer compare register. */
module VvtPwm {
  import opened Machine

  /** Which output the next compare event is for. */
  datatype NextEvent = First | Second | BothOutputs

  datatype State = State(
    value1: uint16,
    value2: uint16,
    cur1: uint16,
    cur2: uint16,
    on1: bool,
    on2: bool,
    max1: bool,
    max2: bool,
    next: NextEvent,
    compare: uint16,
    pin1: bool,
    pin2: bool)

  function After(counter: uint16, ticks: int): uint16 { (counter + ticks) % TWO16 }

  /** The ticks from `counter` until the timer, counting up, next equals `compare`. */
  function TicksUntil(counter: uint16, compare: uint16): nat {
    if compare == counter then TWO16 else (compare - counter) % TWO16
  }

  /** The start of a period: switch on what has a duty and latch both duties. */
  function StartPeriod(s: State, max: uint16, counter: uint16): State {
    var rise1, rise2 := s.value1 > 0 && !s.max1, s.value2 > 0 && !s.max2;
    var s' := s.(on1 := s.on1 || rise1, pin1 := s.pin1 || rise1, on2 := s.on2 || rise2, pin2 := s.pin2 || rise2);
    if s'.on1 && (s.value1 <= s.value2 || !s'.on2) then
      s'.(compare := After(counter, s.value1), cur1 := s.value1, cur2 := s.value2,
          next := if s.value1 == s.value2 then BothOutputs else First)
    else if s'.on2 then
      s'.(compare := After(counter, s.value2), cur1 := s.value1, cur2 := s.value2, next := Second)
    else s'.(compare := After(counter, max))
  }

  /** Switch output 1 off, unless its duty is 100%. */
  function End1(s: State, max: uint16): State {
    if s.value1 < max then s.(on1 := false, pin1 := false, max1 := false) else s.(max1 := true)
  }

  function End2(s: State, max: uint16): State {
    if s.value2 < max then s.(on2 := false, pin2 := false, max2 := false) else s.(max2 := true)
  }

  /** What the compare interrupt does at the moment the timer reads `counter`. */
  function InterruptStep(s: State, max: uint16, counter: uint16): State {
    if (!s.on1 || s.max1) && (!s.on2 || s.max2) then StartPeriod(s, max, counter)
    else match s.next
      case First =>
        var e := End1(s, max);
        if e.on2 then e.(compare := After(counter, s.cur2 - s.cur1), next := Second)
        else e.(compare := After(counter, max - s.cur1), next := BothOutputs)
      case Second =>
        var e := End2(s, max);
        if e.on1 then e.(compare := After(counter, s.cur1 - s.cur2), next := First)
        else e.(compare := After(counter, max - s.cur2), next := BothOutputs)
      case BothOutputs =>
        End2(End1(s, max), max).(compare :=
          if s.value2 < max then After(counter, max - s.cur2)
          else if s.value1 < max then After(counter, max - s.cur1)
          else s.compare)
  }

  class Pwm {
    const maxCount: uint16
    var pwmValue1: uint16
    var pwmValue2: uint16
    var curValue1: uint16
    var curValue2: uint16
    var state1: bool
    var state2: bool
    var maxPwm1: bool
    var maxPwm2: bool
    var nextVvt: NextEvent
    var compare: uint16
    var pin1: bool
    var pin2: bool

    function Abs(): State
      reads this
    {
      State(pwmValue1, pwmValue2, curValue1, curValue2, state1, state2, maxPwm1, maxPwm2, nextVvt, compare, pin1, pin2)
    }

    constructor (maxCount: uint16)
      ensures this.maxCount == maxCount
      ensures Abs() == State(0, 0, 0, 0, false, false, false, false, First, 0, false, false)
    {
      this.maxCount := maxCount;
      pwmValue1, pwmValue2, curValue1, curValue2 := 0, 0, 0, 0;
      state1, state2, maxPwm1, maxPwm2, pin1, pin2 := false, false, false, false, false, false;
      nextVvt, compare := First, 0;
    }

    /** The main loop rewrites both duties, in timer ticks. */
    method SetDuties(duty1: uint16, duty2: uint16)
      modifies this`pwmValue1, this`pwmValue2
      ensures Abs() == old(Abs()).(value1 := duty1, value2 := duty2)
    {
      pwmValue1, pwmValue2 := duty1, duty2;
    }

    method Switch1(on: bool)
      modifies this`pin1, this`state1
      ensures Abs() == old(Abs()).(pin1 := on, on1 := on)
    {
      pin1 := on;
      state1 := on;
    }

    method Switch2(on: bool)
      modifies this`pin2, this`state2
      ensures Abs() == old(Abs()).(pin2 := on, on2 := on)
    {
      pin2 := on;
      state2 := on;
    }

    method Finish1()
      modifies this`pin1, this`state1, this`maxPwm1
      ensures Abs() == End1(old(Abs()), maxCount)
    {
      if pwmValue1 < maxCount {
        Switch1(false);
        maxPwm1 := false;
      } else {
        maxPwm1 := true;
      }
    }

    method Finish2()
      modifies this`pin2, this`state2, this`maxPwm2
      ensures Abs() == End2(old(Abs()), maxCount)
    {
      if pwmValue2 < maxCount {
        Switch2(false);
        maxPwm2 := false;
      } else {
        maxPwm2 := true;
      }
    }

    method Latch()
      modifies this`curValue1, this`curValue2
      ensures Abs() == old(Abs()).(cur1 := old(pwmValue1), cur2 := old(pwmValue2))
    {
      curValue1 := pwmValue1;
      curValue2 := pwmValue2;
    }

    method BeginPeriod(counter: uint16)
      modifies this
      ensures Abs() == StartPeriod(old(Abs()), maxCount, counter)
    {
      if pwmValue1 > 0 && !maxPwm1 {
        Switch1(true);
      }
      if pwmValue2 > 0 && !maxPwm2 {
        Switch2(true);
      }
      if state1 && (pwmValue1 <= pwmValue2 || !state2) {
        compare := After(counter, pwmValue1);
        Latch();
        nextVvt := if pwmValue1 == pwmValue2 then BothOutputs else First;
      } else if state2 {
        compare := After(counter, pwmValue2);
        Latch();
        nextVvt := Second;
      } else {
        compare := After(counter, maxCount);
      }
    }

    method EndBoth(counter: uint16)
      requires nextVvt == BothOutputs
      modifies this
      ensures Abs() == End2(End1(old(Abs()), maxCount), maxCount).(compare := compare)
      ensures compare == if old(pwmValue2) < maxCount then After(counter, maxCount - old(curValue2))
                         else if old(pwmValue1) < maxCount then After(counter, maxCount - old(curValue1))
                         else old(compare)
    {
      if pwmValue1 < maxCount {
        compare := After(counter, maxCount - curValue1);
      }
      Finish1();
      if pwmValue2 < maxCount {
        compare := After(counter, maxCount - curValue2);
      }
      Finish2();
    }

    /** The compare interrupt, on boards whose outputs are not inverted. */
    method VvtInterrupt(counter: uint16)
      modifies this
      ensures Abs() == InterruptStep(old(Abs()), maxCount, counter)
    {
      if (!state1 || maxPwm1) && (!state2 || maxPwm2) {
        BeginPeriod(counter);
      } else {
        match nextVvt
        case First =>
          Finish1();
          if state2 {
            compare := After(counter, curValue2 - curValue1);
            nextVvt := Second;
          } else {
            compare := After(counter, maxCount - curValue1);
            nextVvt := BothOutputs;
          }
        case Second =>
          Finish2();
          if state1 {
            compare := After(counter, curValue1 - curValue2);
            nextVvt := First;
          } else {
            compare := After(counter, maxCount - curValue2);
            nextVvt := BothOutputs;
          }
        case BothOutputs =>
          EndBoth(counter);
      }
    }
  }
}
