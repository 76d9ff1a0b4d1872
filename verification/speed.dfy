/** Three independently written speed supervisors (onboard/spd_algo_*.cpp). */
module Speed {
  // Each has a hysteresis on both limits and a limited time above the high limit.

  datatype Level = Shutdown | WarnHigh | Normal | WarnLow

  const DEADBAND := 0.5
  const MAX_WARN_TIME := 20

  /** What a supervisor remembers: its last report, and when the warning began. */
  datatype Memory = Memory(last: Level, since: int)

  datatype Sample = Sample(now: int, speed: real, distance: real, low: real, high: real, veryHigh: real)

  const START := Memory(Normal, 0)

  // ---------------------------------------------------------------- the three algorithms

  function StepDC(m: Memory, s: Sample): Memory {
    var hi := s.high - 0.001 - (if m.last == WarnHigh then DEADBAND - 0.001 else 0.0);
    var lo := s.low + 0.001 + (if m.last == WarnLow then DEADBAND + 0.001 else 0.0);
    if s.speed >= s.veryHigh then m.(last := Shutdown)
    else if s.speed >= hi then
      if m.last != WarnHigh then Memory(WarnHigh, s.now)
      else if s.now - m.since > MAX_WARN_TIME then m.(last := Shutdown) else m
    else if s.speed > lo then m.(last := Normal) else m.(last := WarnLow)
  }

  function StepRD(was: Memory, s: Sample): Memory {
    var m := if s.distance == 0.0 then was.(last := Normal) else was;
    var lo := s.low + (if m.last == WarnLow then DEADBAND else 0.0);
    var hi := s.high - (if m.last == WarnHigh then DEADBAND else 0.0);
    if m.last == Shutdown then m
    else if s.speed >= s.veryHigh then m.(last := Shutdown)
    else if s.speed >= hi then
      if m.last != WarnHigh then Memory(WarnHigh, s.now)
      else if s.now - m.since > MAX_WARN_TIME then m.(last := Shutdown) else m
    else if s.speed > lo then Memory(Normal, if m.last == WarnHigh then 0 else m.since)
    else m.(last := WarnLow)
  }

  function StepVV(m: Memory, s: Sample): Memory {
    var inf := s.low + (if m.last == WarnLow then DEADBAND else 0.0);
    var sup := s.high - (if m.last == WarnHigh then DEADBAND else 0.0);
    if s.speed >= s.veryHigh then m.(last := Shutdown)
    else if s.speed >= sup then
      if m.last != WarnHigh then Memory(WarnHigh, s.now)
      else if s.now - m.since > MAX_WARN_TIME then m.(last := Shutdown) else m
    else if s.speed >= inf then m.(last := Normal) else m.(last := WarnLow)
  }

  // ---------------------------------------------------------------- where they can differ

  /** The speed lies where the three limits fall apart: a thousandth below the high limit, or between the low limits. */
  predicate InBand(last: Level, s: Sample) {
    var hi := if last == WarnHigh then s.high - DEADBAND else s.high;
    var hiDC := if last == WarnHigh then hi else hi - 0.001;
    var lo := if last == WarnLow then s.low + DEADBAND else s.low;
    var loDC := if last == WarnLow then lo + 0.002 else lo + 0.001;
    s.speed < s.veryHigh && s.speed < hi && (s.speed >= hiDC || lo <= s.speed <= loDC)
  }

  datatype Trio = Trio(dc: Memory, rd: Memory, vv: Memory)

  function StepAll(t: Trio, s: Sample): Trio {
    Trio(StepDC(t.dc, s), StepRD(t.rd, s), StepVV(t.vv, s))
  }

  predicate Unanimous(t: Trio) {
    t.dc.last == t.rd.last == t.vv.last
  }

  /** The same report, and the same beginning of the warning if there is one. */
  predicate Alike(t: Trio) {
    Unanimous(t) && (t.dc.last == WarnHigh ==> t.dc.since == t.rd.since == t.vv.since)
  }

  lemma DifferOnlyInBand(t: Trio, s: Sample)
    requires Alike(t) && t.dc.last != Shutdown && s.distance != 0.0
    ensures Unanimous(StepAll(t, s)) <==> !InBand(t.dc.last, s)
    ensures Unanimous(StepAll(t, s)) ==> Alike(StepAll(t, s))
  {}

  function Run(t: Trio, ss: seq<Sample>): Trio
    decreases |ss|
  {
    if ss == [] then t else Run(StepAll(t, ss[0]), ss[1..])
  }

  /** Every report up to the first shutdown is unanimous. */
  predicate AgreeUntilShutdown(t: Trio, ss: seq<Sample>)
    decreases |ss|
  {
    ss == [] ||
    var u := StepAll(t, ss[0]);
    Unanimous(u) && (u.dc.last == Shutdown || AgreeUntilShutdown(u, ss[1..]))
  }

  /** A run of one supervisor alone meets a speed between the limits of the three before it shuts down. */
  predicate MeetsBand(m: Memory, ss: seq<Sample>)
    decreases |ss|
  {
    ss != [] &&
    (InBand(m.last, ss[0]) || (StepVV(m, ss[0]).last != Shutdown && MeetsBand(StepVV(m, ss[0]), ss[1..])))
  }

  predicate Moving(ss: seq<Sample>) {
    forall i :: 0 <= i < |ss| ==> ss[i].distance != 0.0
  }

  /** On every run away from the station the three agree up to the first shutdown exactly if the speed never falls
      between their limits. */
  lemma {:induction false} AgreeOutsideBands(t: Trio, ss: seq<Sample>)
    requires Alike(t) && t.dc.last != Shutdown && Moving(ss)
    ensures AgreeUntilShutdown(t, ss) <==> !MeetsBand(t.vv, ss)
    decreases |ss|
  {
    hide StepDC, StepRD, StepVV, InBand;
    if ss != [] {
      var u := StepAll(t, ss[0]);
      DifferOnlyInBand(t, ss[0]);
      if Unanimous(u) && u.dc.last != Shutdown {
        assert Moving(ss[1..]);
        AgreeOutsideBands(u, ss[1..]);
      }
    }
  }

  // ---------------------------------------------------------------- the shutdown of RD is latched

  lemma {:induction false} ShutdownIsLatched(t: Trio, ss: seq<Sample>)
    requires t.rd.last == Shutdown && Moving(ss)
    ensures Run(t, ss).rd.last == Shutdown
    decreases |ss|
  {
    hide StepDC, StepVV;
    if ss != [] {
      assert Moving(ss[1..]);
      ShutdownIsLatched(StepAll(t, ss[0]), ss[1..]);
    }
  }

  /** The other two forget a shutdown as soon as the speed is below the limits. */
  lemma OthersForget(m: Memory, s: Sample)
    requires m.last == Shutdown && s.low + 0.001 < s.speed < s.high - 0.001 && s.speed < s.veryHigh
    ensures StepDC(m, s).last == Normal && StepVV(m, s).last == Normal
  {}

  // ---------------------------------------------------------------- how long a warning can last

  datatype Version = DC | RD | VV

  function Step(v: Version, m: Memory, s: Sample): Memory {
    match v
    case DC => StepDC(m, s)
    case RD => StepRD(m, s)
    case VV => StepVV(m, s)
  }

  predicate WarnsThroughout(v: Version, m: Memory, ss: seq<Sample>)
    decreases |ss|
  {
    ss == [] || (Step(v, m, ss[0]).last == WarnHigh && WarnsThroughout(v, Step(v, m, ss[0]), ss[1..]))
  }

  lemma WarnStep(v: Version, m: Memory, s: Sample)
    requires m.last == WarnHigh && (v == RD ==> s.distance != 0.0) && Step(v, m, s).last == WarnHigh
    ensures Step(v, m, s).since == m.since && s.now - m.since <= MAX_WARN_TIME
  {}

  lemma {:induction false} WarningGoesOn(v: Version, m: Memory, ss: seq<Sample>)
    requires m.last == WarnHigh && (v == RD ==> Moving(ss)) && WarnsThroughout(v, m, ss)
    ensures forall i :: 0 <= i < |ss| ==> ss[i].now - m.since <= MAX_WARN_TIME
    decreases |ss|
  {
    hide Step;
    if ss != [] {
      WarnStep(v, m, ss[0]);
      assert v == RD ==> Moving(ss[1..]);
      WarningGoesOn(v, Step(v, m, ss[0]), ss[1..]);
      forall i | 0 <= i < |ss| ensures ss[i].now - m.since <= MAX_WARN_TIME {
        if i > 0 {
          assert ss[i] == ss[1..][i - 1];
        }
      }
    }
  }

  /** No supervisor warns of high speed for longer than the time it allows: whatever the samples, an unbroken stretch of
      such reports spans at most twenty units of time; for RD, which starts afresh at distance zero, away from there. */
  lemma WarningIsLimited(v: Version, m: Memory, ss: seq<Sample>)
    requires m.last != WarnHigh && (v == RD ==> Moving(ss)) && WarnsThroughout(v, m, ss)
    ensures forall i :: 0 <= i < |ss| ==> ss[i].now - ss[0].now <= MAX_WARN_TIME
  {
    if ss != [] {
      assert v == RD ==> Moving(ss[1..]);
      assert Step(v, m, ss[0]).since == ss[0].now;
      hide Step;
      WarningGoesOn(v, Step(v, m, ss[0]), ss[1..]);
      forall i | 0 <= i < |ss| ensures ss[i].now - ss[0].now <= MAX_WARN_TIME {
        if i > 0 {
          assert ss[i] == ss[1..][i - 1];
        }
      }
    }
  }

  // ---------------------------------------------------------------- every report

  /** RD starts afresh at distance zero; the others remember. */
  function Remembered(v: Version, m: Memory, s: Sample): Level {
    if v == RD && s.distance == 0.0 then Normal else m.last
  }

  /** The speed from which on the supervisor warns, and the one from which on it reports a normal speed: half a unit of
      hysteresis on both, and with DC a thousandth, or two, on the safe side. */
  function HighFrom(v: Version, last: Level, s: Sample): real {
    if last == WarnHigh then s.high - 0.5 else if v == DC then s.high - 0.001 else s.high
  }

  predicate TooLow(v: Version, last: Level, s: Sample) {
    var low := if last == WarnLow then s.low + 0.5 else s.low;
    match v
    case DC => s.speed <= (if last == WarnLow then low + 0.002 else low + 0.001)
    case RD => s.speed <= low
    case VV => s.speed < low
  }

  /** What each supervisor reports of any sample, whatever it remembers. */
  lemma ReportsAre(v: Version, m: Memory, s: Sample)
    ensures
      var last, r := Remembered(v, m, s), Step(v, m, s);
      var latched := v == RD && last == Shutdown;
      var high := s.speed >= HighFrom(v, last, s);
      var tooLong := last == WarnHigh && s.now - m.since > 20;
      && (r.last == Shutdown <==> latched || s.speed >= s.veryHigh || (high && tooLong))
      && (r.last == WarnHigh <==> !latched && s.speed < s.veryHigh && high && !tooLong)
      && (r.last == WarnLow <==> !latched && s.speed < s.veryHigh && !high && TooLow(v, last, s))
      && (r.last == WarnHigh ==> r.since == if last == WarnHigh then m.since else s.now)
  {}

  /** At distance zero RD shuts down exactly for a speed that is very high, whatever it remembers, and otherwise
      reports by the limits without hysteresis. */
  lemma FreshAtZero(m: Memory, s: Sample)
    requires s.distance == 0.0
    ensures
      var r := StepRD(m, s).last;
      && (r == Shutdown <==> s.speed >= s.veryHigh)
      && (r == WarnHigh <==> s.high <= s.speed < s.veryHigh)
      && (r == Normal <==> s.speed < s.veryHigh && s.low < s.speed < s.high)
      && (r == WarnLow <==> s.speed < s.veryHigh && s.speed < s.high && s.speed <= s.low)
  {}

  /** At the station, and not much too fast. */
  predicate Releases(s: Sample) {
    s.distance == 0.0 && s.speed < s.veryHigh
  }

  /** RD reports a shutdown at every sample. */
  predicate StaysDown(m: Memory, ss: seq<Sample>)
    decreases |ss|
  {
    ss == [] || (StepRD(m, ss[0]).last == Shutdown && StaysDown(StepRD(m, ss[0]), ss[1..]))
  }

  /** From a shutdown, RD stays shut down exactly up to the first sample at distance zero with a speed that is not
      very high. */
  lemma {:induction false} DownUntilReleased(m: Memory, ss: seq<Sample>)
    requires m.last == Shutdown
    ensures StaysDown(m, ss) <==> forall i :: 0 <= i < |ss| ==> !Releases(ss[i])
    decreases |ss|
  {
    if ss != [] {
      var n := StepRD(m, ss[0]);
      assert n.last == Shutdown <==> !Releases(ss[0]);
      if n.last == Shutdown {
        DownUntilReleased(n, ss[1..]);
        assert forall i :: 0 < i < |ss| ==> ss[i] == ss[1..][i - 1];
      }
    }
  }

  // ---------------------------------------------------------------- the objects

  class SpeedAlgorithmDC {
    var lastState: Level
    var warnStartTime: int

    constructor ()
      ensures Memory(lastState, warnStartTime) == START
    {
      lastState, warnStartTime := Normal, 0;
    }

    method Evaluate(s: Sample) returns (state: Level)
      modifies this
      ensures Memory(lastState, warnStartTime) == StepDC(old(Memory(lastState, warnStartTime)), s)
      ensures state == lastState
    {
      var hiLimit := s.high - 0.001;
      var loLimit := s.low + 0.001;
      if lastState == WarnHigh {
        hiLimit := hiLimit - (DEADBAND - 0.001);
      }
      if lastState == WarnLow {
        loLimit := loLimit + (DEADBAND + 0.001);
      }
      if s.speed >= s.veryHigh {
        lastState := Shutdown;
        return Shutdown;
      } else if s.speed >= hiLimit {
        if lastState == WarnHigh {
          if s.now - warnStartTime > MAX_WARN_TIME {
            lastState := Shutdown;
            return Shutdown;
          } else {
            return WarnHigh;
          }
        } else {
          warnStartTime := s.now;
          lastState := WarnHigh;
          return WarnHigh;
        }
      } else if s.speed > loLimit {
        lastState := Normal;
        return Normal;
      } else {
        lastState := WarnLow;
        return WarnLow;
      }
    }
  }

  class SpeedAlgorithmRD {
    var previousState: Level
    var warningBeginning: int

    constructor ()
      ensures Memory(previousState, warningBeginning) == START
    {
      previousState, warningBeginning := Normal, 0;
    }

    method Evaluate(s: Sample) returns (state: Level)
      modifies this
      ensures Memory(previousState, warningBeginning) == StepRD(old(Memory(previousState, warningBeginning)), s)
      ensures state == previousState
    {
      if s.distance == 0.0 {
        ResetState();
      }
      var actualLow, actualHigh := s.low, s.high;
      if previousState == Shutdown {
        return Shutdown;
      }
      if previousState == WarnLow {
        actualLow := actualLow + DEADBAND;
      }
      if previousState == WarnHigh {
        actualHigh := actualHigh - DEADBAND;
      }
      if s.speed >= s.veryHigh {
        previousState := Shutdown;
        return Shutdown;
      } else if s.speed >= actualHigh {
        if previousState == WarnHigh {
          if s.now - warningBeginning > MAX_WARN_TIME {
            previousState := Shutdown;
            return Shutdown;
          } else {
            return WarnHigh;
          }
        } else {
          previousState := WarnHigh;
          warningBeginning := s.now;
          return WarnHigh;
        }
      } else if s.speed > actualLow {
        if previousState == WarnHigh {
          warningBeginning := 0;
        }
        previousState := Normal;
        return Normal;
      } else {
        previousState := WarnLow;
        return WarnLow;
      }
    }

    method ResetState()
      modifies this`previousState
      ensures previousState == Normal
    {
      previousState := Normal;
    }
  }

  class SpeedAlgorithmVV {
    var previousState: Level
    var warning: int

    constructor ()
      ensures Memory(previousState, warning) == START
    {
      previousState, warning := Normal, 0;
    }

    method Evaluate(s: Sample) returns (state: Level)
      modifies this
      ensures Memory(previousState, warning) == StepVV(old(Memory(previousState, warning)), s)
      ensures state == previousState
    {
      var inf, sup := s.low, s.high;
      if previousState == WarnLow {
        inf := inf + DEADBAND;
      }
      if previousState == WarnHigh {
        sup := sup - DEADBAND;
      }
      if s.speed >= s.veryHigh {
        previousState := Shutdown;
        return previousState;
      } else if s.speed >= sup {
        if previousState == WarnHigh {
          if s.now - warning > MAX_WARN_TIME {
            previousState := Shutdown;
            return previousState;
          } else {
            return WarnHigh;
          }
        } else {
          warning := s.now;
          previousState := WarnHigh;
          return previousState;
        }
      } else if s.speed >= inf {
        previousState := Normal;
        return previousState;
      } else {
        previousState := WarnLow;
        return previousState;
      }
    }
  }
}
