/** When a waiting train's light is to turn green (classic_tcontrol/controlalg.cpp). */
module GreenTime {
  // Times are reals; the timetable repeats every `cycle` seconds.

  // ---------------------------------------------------------------- whole numbers of cycles

  function Turns(k: int, cycle: real): real {
    k as real * cycle
  }

  lemma TurnsAdd(j: int, k: int, cycle: real)
    ensures Turns(j + k, cycle) == Turns(j, cycle) + Turns(k, cycle)
    ensures Turns(0, cycle) == 0.0 && Turns(1, cycle) == cycle && Turns(-1, cycle) == -cycle
  {
    assert (j + k) as real == j as real + k as real;
  }

  /** Two instants, or two delays, that are a whole number of cycles apart. */
  ghost predicate Congruent(x: real, y: real, cycle: real) {
    exists k: int :: x == y + Turns(k, cycle)
  }

  lemma CongruentSelf(x: real, cycle: real)
    ensures Congruent(x, x, cycle)
  {
    TurnsAdd(0, 0, cycle);
    assert x == x + Turns(0, cycle);
  }

  lemma CongruentOne(x: real, cycle: real)
    ensures Congruent(x, x + cycle, cycle) && Congruent(x, x - cycle, cycle)
  {
    TurnsAdd(0, 0, cycle);
    assert x == x + cycle + Turns(-1, cycle);
    assert x == x - cycle + Turns(1, cycle);
  }

  lemma CongruentChain(x: real, y: real, z: real, cycle: real)
    requires Congruent(x, y, cycle) && Congruent(y, z, cycle)
    ensures Congruent(x, z, cycle)
  {
    var j: int :| x == y + Turns(j, cycle);
    var k: int :| y == z + Turns(k, cycle);
    TurnsAdd(j, k, cycle);
    assert x == z + Turns(j + k, cycle);
  }

  lemma CongruentShift(x: real, y: real, d: real, cycle: real)
    requires Congruent(x, y, cycle)
    ensures Congruent(x + d, y + d, cycle)
  {
    var k: int :| x == y + Turns(k, cycle);
    assert x + d == y + d + Turns(k, cycle);
  }

  // ---------------------------------------------------------------- the calculation

  function ShouldBeHere(pace: real, slot: real, cycle: real): real {
    if pace + slot >= cycle then pace + slot - cycle else pace + slot
  }

  function TimeToGreen(pace: real, slot: real, green: real, cycle: real): real {
    var here := ShouldBeHere(pace, slot, cycle);
    (if green < here then green + cycle else green) - here
  }

  function Shortened(at: real, last: real, cycle: real): real {
    if at - last > 3000.0 then at - cycle else at
  }

  /** `at` moved up by whole cycles until it is at most half a cycle before `time`. */
  function Raised(time: real, at: real, cycle: real): real
    requires cycle > 0.0
    decreases (time - at) / cycle
  {
    if time - at > cycle / 2.0 then OneLess(time - at, cycle); Raised(time, at + cycle, cycle) else at
  }

  function Lowered(time: real, at: real, cycle: real): real
    requires cycle > 0.0
    decreases (at - time) / cycle
  {
    if at - time > cycle / 2.0 then OneLess(at - time, cycle); Lowered(time, at - cycle, cycle) else at
  }

  lemma OneLess(d: real, cycle: real)
    requires cycle > 0.0
    ensures (d - cycle) / cycle == d / cycle - 1.0
    ensures d > 0.0 ==> d / cycle > 0.0
  {
    var q, r := d / cycle, (d - cycle) / cycle;
    assert q * cycle == d && r * cycle == d - cycle;
    assert (q - 1.0 - r) * cycle == 0.0;
    Factor(q - 1.0 - r, cycle);
  }

  lemma Factor(x: real, y: real)
    requires y > 0.0 && x * y == 0.0
    ensures x == 0.0
  {}

  function GreenAt(time: real, pace: real, slot: real, green: real, cycle: real, last: real): real
    requires cycle > 0.0
  {
    var at := Shortened(time + TimeToGreen(pace, slot, green, cycle), last, cycle);
    Lowered(time, Raised(time, at, cycle), cycle)
  }

  /** How late a train is that is at `whereYouAre`. */
  function Lateness(pace: real, slot: real, whereYouAre: real, cycle: real): real {
    var error := ShouldBeHere(pace, slot, cycle) - whereYouAre;
    var error' := if error >= 1000.0 then error - cycle else error;
    if error' <= -1000.0 then error' + cycle else error'
  }

  method CalcTimeAtGreen(time: real, pace: real, slot: real, whereYouAre: real, green: real, cycle: real, last: real)
      returns (timeAtGreen: real, error: real)
    requires cycle > 0.0
    ensures timeAtGreen == GreenAt(time, pace, slot, green, cycle, last)
    ensures error == Lateness(pace, slot, whereYouAre, cycle)
  {
    var shouldBeHere := pace + slot;
    if shouldBeHere >= cycle {
      shouldBeHere := shouldBeHere - cycle;
    }
    var greenLocation := green;
    if greenLocation < shouldBeHere {
      greenLocation := greenLocation + cycle;
    }
    var timeToGreen := greenLocation - shouldBeHere;
    timeAtGreen := time + timeToGreen;
    if timeAtGreen - last > 3000.0 {
      timeAtGreen := timeAtGreen - cycle;
    }
    error := shouldBeHere - whereYouAre;
    if error >= 1000.0 {
      error := error - cycle;
    }
    if error <= -1000.0 {
      error := error + cycle;
    }
    ghost var raised := Raised(time, timeAtGreen, cycle);
    while time - timeAtGreen > cycle / 2.0
      invariant Raised(time, timeAtGreen, cycle) == raised
      decreases (time - timeAtGreen) / cycle
    {
      OneLess(time - timeAtGreen, cycle);
      timeAtGreen := timeAtGreen + cycle;
    }
    while timeAtGreen - time > cycle / 2.0
      invariant Lowered(time, timeAtGreen, cycle) == Lowered(time, raised, cycle)
      decreases (timeAtGreen - time) / cycle
    {
      OneLess(timeAtGreen - time, cycle);
      timeAtGreen := timeAtGreen - cycle;
    }
  }

  // ---------------------------------------------------------------- what it calculates

  lemma {:induction false} RaisedIsNear(time: real, at: real, cycle: real)
    requires cycle > 0.0
    ensures Congruent(Raised(time, at, cycle), at, cycle)
    ensures time - Raised(time, at, cycle) <= cycle / 2.0
    ensures Raised(time, at, cycle) == at || Raised(time, at, cycle) - time < cycle / 2.0
    decreases (time - at) / cycle
  {
    CongruentSelf(at, cycle);
    if time - at > cycle / 2.0 {
      OneLess(time - at, cycle);
      RaisedIsNear(time, at + cycle, cycle);
      CongruentOne(at + cycle, cycle);
      CongruentChain(Raised(time, at, cycle), at + cycle, at, cycle);
    }
  }

  lemma {:induction false} LoweredIsNear(time: real, at: real, cycle: real)
    requires cycle > 0.0
    ensures Congruent(Lowered(time, at, cycle), at, cycle)
    ensures Lowered(time, at, cycle) - time <= cycle / 2.0
    ensures Lowered(time, at, cycle) == at || time - Lowered(time, at, cycle) < cycle / 2.0
    decreases (at - time) / cycle
  {
    CongruentSelf(at, cycle);
    if at - time > cycle / 2.0 {
      OneLess(at - time, cycle);
      LoweredIsNear(time, at - cycle, cycle);
      CongruentOne(at - cycle, cycle);
      CongruentChain(Lowered(time, at, cycle), at - cycle, at, cycle);
    }
  }

  lemma FirstGuessOnSchedule(time: real, pace: real, slot: real, green: real, cycle: real, last: real)
    ensures Congruent(Shortened(time + TimeToGreen(pace, slot, green, cycle), last, cycle), time + green - (pace + slot), cycle)
  {
    var wanted := time + green - (pace + slot);
    CongruentSelf(wanted, cycle);
    CongruentOne(wanted + cycle, cycle);
    CongruentOne(wanted - cycle, cycle);
    CongruentOne(wanted + cycle + cycle, cycle);
    CongruentChain(wanted + cycle + cycle, wanted + cycle, wanted, cycle);
  }

  /** The light turns green when the timetable says so, at the time nearest to now. */
  lemma GreenIsOnSchedule(time: real, pace: real, slot: real, green: real, cycle: real, last: real)
    requires cycle > 0.0
    ensures var at := GreenAt(time, pace, slot, green, cycle, last);
            Congruent(at, time + green - (pace + slot), cycle) && time - cycle / 2.0 <= at <= time + cycle / 2.0
  {
    var guess := Shortened(time + TimeToGreen(pace, slot, green, cycle), last, cycle);
    var raised := Raised(time, guess, cycle);
    var wanted := time + green - (pace + slot);
    FirstGuessOnSchedule(time, pace, slot, green, cycle, last);
    RaisedIsNear(time, guess, cycle);
    LoweredIsNear(time, raised, cycle);
    CongruentChain(raised, guess, wanted, cycle);
    CongruentChain(Lowered(time, raised, cycle), raised, wanted, cycle);
  }

  /** Nothing else has those two properties, except at the two ends of the cycle around now. */
  lemma OnlyOneNearest(time: real, wanted: real, x: real, y: real, cycle: real)
    requires cycle > 0.0 && Congruent(x, wanted, cycle) && Congruent(y, wanted, cycle)
    requires time - cycle / 2.0 <= x <= time + cycle / 2.0 && time - cycle / 2.0 <= y <= time + cycle / 2.0
    requires x <= y
    ensures x == y || (x == time - cycle / 2.0 && y == time + cycle / 2.0)
  {
    var j: int :| x == wanted + Turns(j, cycle);
    var k: int :| y == wanted + Turns(k, cycle);
    TurnsAdd(k - j, j, cycle);
    assert 0.0 <= Turns(k - j, cycle) <= cycle;
    TurnsBetween(k - j, cycle);
  }

  lemma TurnsBetween(k: int, cycle: real)
    requires cycle > 0.0
    ensures k < 0 ==> Turns(k, cycle) < 0.0
    ensures k >= 2 ==> Turns(k, cycle) >= 2.0 * cycle
    ensures Turns(0, cycle) == 0.0 && Turns(1, cycle) == cycle
  {
    TurnsAdd(0, 0, cycle);
    if k < 0 {
      Product((-k) as real, cycle);
    } else if k >= 2 {
      Product(k as real - 2.0, cycle);
    }
  }

  lemma Product(x: real, y: real)
    requires x >= 0.0 && y > 0.0
    ensures x * y >= 0.0 && (x > 0.0 ==> x * y > 0.0)
  {}

  /** The time of the previous green, and the shortcut that uses it, make no difference to the result ... */
  lemma LastIsIgnored(time: real, pace: real, slot: real, green: real, cycle: real, last: real, last': real)
    requires cycle > 0.0 && TimeToGreen(pace, slot, green, cycle) != cycle / 2.0
    ensures GreenAt(time, pace, slot, green, cycle, last) == GreenAt(time, pace, slot, green, cycle, last')
  {
    var at := time + TimeToGreen(pace, slot, green, cycle);
    assert Lowered(time, Raised(time, at, cycle), cycle) == Lowered(time, Raised(time, at - cycle, cycle), cycle) by {
      if at - time < cycle / 2.0 {
        assert Raised(time, at - cycle, cycle) == Raised(time, at, cycle);
      } else {
        assert Raised(time, at, cycle) == at && Raised(time, at - cycle, cycle) == at - cycle;
      }
    }
  }

  /** ... unless the light is due in exactly half a cycle, when it decides between the two nearest times. */
  lemma LastDecidesTies(time: real, pace: real, slot: real, green: real, cycle: real, last: real)
    requires cycle > 0.0 && TimeToGreen(pace, slot, green, cycle) == cycle / 2.0
    ensures GreenAt(time, pace, slot, green, cycle, last) ==
            if time + cycle / 2.0 - last > 3000.0 then time - cycle / 2.0 else time + cycle / 2.0
  {}

  lemma LatenessOnSchedule(pace: real, slot: real, whereYouAre: real, cycle: real)
    ensures Congruent(Lateness(pace, slot, whereYouAre, cycle), pace + slot - whereYouAre, cycle)
  {
    var wanted := pace + slot - whereYouAre;
    CongruentSelf(wanted, cycle);
    CongruentOne(wanted + cycle, cycle);
    CongruentOne(wanted - cycle, cycle);
    CongruentOne(wanted - cycle - cycle, cycle);
    CongruentChain(wanted - cycle - cycle, wanted - cycle, wanted, cycle);
  }

  /** For a train within a cycle of its place the lateness comes out below 1000 seconds exactly when the train is that
      close to its place in this cycle, the one before or the one after. */
  lemma LatenessIsSmall(pace: real, slot: real, whereYouAre: real, cycle: real)
    requires cycle > 0.0 && -cycle < ShouldBeHere(pace, slot, cycle) - whereYouAre < cycle
    ensures var off := ShouldBeHere(pace, slot, cycle) - whereYouAre;
            -1000.0 < Lateness(pace, slot, whereYouAre, cycle) < 1000.0 <==>
            -1000.0 < off < 1000.0 || -1000.0 < off - cycle || off + cycle < 1000.0
  {}

  // ---------------------------------------------------------------- within one cycle

  /** The place where a train should be is a place of the cycle, unless its slot leads before the start of it. */
  lemma PlaceOfCycle(pace: real, slot: real, cycle: real)
    requires cycle > 0.0 && pace + slot < cycle + cycle
    ensures var here := ShouldBeHere(pace, slot, cycle);
            && Congruent(here, pace + slot, cycle) && here < cycle
            && (if pace + slot < 0.0 then here == pace + slot else here >= 0.0)
  {
    CongruentSelf(pace + slot, cycle);
    CongruentOne(pace + slot - cycle, cycle);
    assert pace + slot - cycle + cycle == pace + slot;
  }

  /** The wait for a green of the cycle takes less than a cycle. */
  lemma WaitIsOfCycle(pace: real, slot: real, green: real, cycle: real)
    requires cycle > 0.0 && 0.0 <= pace + slot < cycle + cycle && 0.0 <= green < cycle
    ensures var wait := TimeToGreen(pace, slot, green, cycle);
            0.0 <= wait < cycle && Congruent(wait, green - (pace + slot), cycle)
  {
    var wanted := green - (pace + slot);
    PlaceOfCycle(pace, slot, cycle);
    CongruentSelf(wanted, cycle);
    CongruentOne(wanted + cycle, cycle);
    CongruentOne(wanted + cycle + cycle, cycle);
    CongruentChain(wanted + cycle + cycle, wanted + cycle, wanted, cycle);
    assert wanted + cycle - cycle == wanted && wanted + cycle + cycle - cycle == wanted + cycle;
  }

  lemma OnePlace(x: real, y: real, cycle: real)
    requires cycle > 0.0 && 0.0 <= x < cycle && 0.0 <= y < cycle && Congruent(x, y, cycle)
    ensures x == y
  {
    CongruentSelf(y, cycle);
    if x <= y { OnlyOneNearest(cycle / 2.0, y, x, y, cycle); } else { OnlyOneNearest(cycle / 2.0, y, y, x, cycle); }
  }

  /** The lateness is the distance from the place of the cycle where the train should be; one of 1000 seconds or more is
      taken for that in the neighbouring cycle, unless a late one is as far off there. */
  lemma LatenessIsDistance(pace: real, slot: real, whereYouAre: real, cycle: real, place: real)
    requires cycle > 0.0 && 0.0 <= pace + slot < cycle + cycle
    requires 0.0 <= place < cycle && Congruent(place, pace + slot, cycle)
    ensures var late, off := Lateness(pace, slot, whereYouAre, cycle), place - whereYouAre;
            && (-1000.0 < off < 1000.0 ==> late == off)
            && (off >= 1000.0 ==> late == if off - cycle > -1000.0 then off - cycle else off)
            && (off <= -1000.0 ==> late == off + cycle)
  {
    var here := ShouldBeHere(pace, slot, cycle);
    PlaceOfCycle(pace, slot, cycle);
    CongruentBack(here, pace + slot, cycle);
    CongruentChain(place, pace + slot, here, cycle);
    OnePlace(place, here, cycle);
  }

  lemma CongruentBack(x: real, y: real, cycle: real)
    requires Congruent(x, y, cycle)
    ensures Congruent(y, x, cycle)
  {
    var k: int :| x == y + Turns(k, cycle);
    TurnsAdd(k, -k, cycle);
    assert y == x + Turns(-k, cycle);
  }
}
