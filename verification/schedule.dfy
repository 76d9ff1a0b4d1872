/** The schedule controller. */
module Schedule {
  // classic_tcontrol/controlalg.cpp: it carries the numbers of the trains round the line, gives each light its time, and
  // keeps the clock of an imaginary pace train that slips when trains are late.

  import opened Ring
  import opened GreenTime

  datatype Section = Section(hasEntry: bool, hasTrain: bool, number: int, requested: bool)
  datatype Train = Train(section: nat, expected: nat, late: real, timeAtGreen: real, pastGreen: bool,
                         slot: real, enterTime: real)
  datatype Clock = Clock(cycleNumber: int, seconds: real, totalSlip: real, now: real)
  datatype Controller = Controller(sections: seq<Section>, trains: seq<Train>, green: seq<bool>, clock: Clock,
                                   estop: bool)

  /** What the controller reads from the description of the line. */
  datatype Timetable = Timetable(cycle: real, location: seq<real>, toGreen: seq<real>, sectionTime: seq<real>,
                                 toStation: seq<real>, toEntrance: seq<real>,
                                 dwell: real, toDetector: real)

  ghost predicate Known(tt: Timetable, c: Controller) {
    && tt.cycle > 0.0
    && |c.green| == |c.sections| == |tt.location| == |tt.toGreen| == |tt.sectionTime| == |tt.toStation|
       == |tt.toEntrance|
  }

  // ---------------------------------------------------------------- train numbers

  ghost predicate Booked(c: Controller, t: nat)
    requires t < |c.trains|
  {
    var s := c.trains[t].section;
    s < |c.sections| && c.sections[s].hasTrain && c.sections[s].number == t
  }

  ghost predicate Held(c: Controller, s: nat)
    requires s < |c.sections|
  {
    c.sections[s].hasTrain ==>
      0 <= c.sections[s].number < |c.trains| && c.trains[c.sections[s].number].section == s
  }

  /** Every train is in a section, and every section with a train names one. */
  ghost predicate InBounds(c: Controller) {
    && (forall t :: 0 <= t < |c.trains| ==> c.trains[t].section < |c.sections|)
    && (forall s :: 0 <= s < |c.sections| && c.sections[s].hasTrain ==> 0 <= c.sections[s].number < |c.trains|)
  }

  /** Sections and trains say the same about which train is where. */
  ghost predicate Identity(c: Controller) {
    && InBounds(c)
    && (forall t: nat :: t < |c.trains| ==> Booked(c, t))
    && (forall s: nat :: s < |c.sections| ==> Held(c, s))
  }

  // ---------------------------------------------------------------- events

  /** A crossing is believed if the section is free and not promised, and there was a train in the one before. */
  predicate Crosses(c: Controller, section: int) {
    && 0 <= section < |c.sections|
    && !(c.sections[section].hasEntry && c.sections[section].requested)
    && !c.sections[section].hasTrain
    && c.sections[Prev(|c.sections|, section)].hasTrain
  }

  function CrossingEvent(tt: Timetable, c: Controller, section: int): Controller
    requires Known(tt, c) && InBounds(c)
  {
    if !Crosses(c, section) then c.(estop := true) else
    var last := Prev(|c.sections|, section);
    var tn := c.sections[last].number;
    var arrived := c.sections[section].(hasTrain := true, number := tn);
    var left := c.sections[last].(hasTrain := false, number := -1);
    c.(sections := c.sections[section := arrived][last := left],
       trains := c.trains[tn := Arrived(tt, c.trains[tn], section, c.clock)],
       green := c.green[section := false])
  }

  /** The record of a train as it enters a section. */
  function Arrived(tt: Timetable, t: Train, section: nat, k: Clock): Train
    requires tt.cycle > 0.0 && section < |tt.location| == |tt.toGreen|
  {
    t.(section := section, pastGreen := false,
       timeAtGreen := GreenAt(k.now, k.seconds, t.slot, tt.toGreen[section], tt.cycle, t.timeAtGreen),
       late := Lateness(k.seconds, t.slot, tt.location[section], tt.cycle),
       enterTime := k.now - tt.toDetector)
  }

  function RequestEntry(c: Controller, section: nat): Controller
    requires section < |c.sections| == |c.green|
  {
    if Grants(c, section) then
      c.(green := c.green[section := false],
         sections := c.sections[section := c.sections[section].(requested := true)])
    else c.(estop := true)
  }

  predicate Grants(c: Controller, section: nat)
    requires section < |c.sections|
  {
    && c.sections[section].hasEntry && !c.sections[section].hasTrain
    && !c.sections[Prev(|c.sections|, section)].hasTrain
  }

  function CancelEntry(c: Controller, section: nat): Controller
    requires section < |c.sections| == |c.green|
  {
    if Cancels(c, section) then
      c.(green := c.green[section := true],
         sections := c.sections[section := c.sections[section].(requested := false)])
    else c.(estop := true)
  }

  predicate Cancels(c: Controller, section: nat)
    requires section < |c.sections|
  {
    c.sections[section].hasEntry && c.sections[section].requested && !c.sections[section].hasTrain
  }

  /** A train comes in from outside; `spare` is what the array of records holds behind those in use. */
  function EntryEvent(tt: Timetable, c: Controller, section: nat, spare: Train): Controller
    requires Known(tt, c) && section < |c.sections|
  {
    if Enters(c, section) then
      var s := c.sections[section].(hasTrain := true, requested := false, number := |c.trains|);
      c.(sections := c.sections[section := s], trains := c.trains + [Entered(tt, spare, section, c.clock)],
         green := c.green[section := false])
    else c.(estop := true)
  }

  predicate Enters(c: Controller, section: nat)
    requires section < |c.sections|
  {
    c.sections[section].requested && !c.sections[section].hasTrain
  }

  function Entered(tt: Timetable, spare: Train, section: nat, k: Clock): Train
    requires section < |tt.location| == |tt.toGreen| == |tt.toEntrance|
  {
    var ahead := tt.location[section] + tt.toEntrance[section] - k.seconds;
    spare.(timeAtGreen := tt.toGreen[section], slot := if ahead < 0.0 then ahead - tt.cycle else ahead,
           enterTime := k.now - tt.toEntrance[section], late := 0.0)
  }

  function ExitEvent(c: Controller, section: nat): Controller
    requires section < |c.sections| == |c.green|
  {
    if Leaves(c, section) then
      c.(green := c.green[section := true],
         sections := c.sections[section := c.sections[section].(hasTrain := false, requested := false)])
    else c.(estop := true)
  }

  predicate Leaves(c: Controller, section: nat)
    requires section < |c.sections|
  {
    c.sections[section].hasEntry && c.sections[section].hasTrain
  }

  // ---------------------------------------------------------------- the clock

  function Advance(k: Clock, cycle: real, time: real, increment: real): Clock {
    if k.seconds + increment >= cycle
    then k.(now := time, seconds := k.seconds + increment - cycle, cycleNumber := k.cycleNumber + 1)
    else k.(now := time, seconds := k.seconds + increment)
  }

  function UpdateTrain(c: Controller, i: nat, time: real): Controller
    requires i < |c.trains| && |c.green| == |c.sections| && c.trains[i].section < |c.sections|
  {
    var t := c.trains[i];
    if !t.pastGreen && time > t.timeAtGreen then
      var next := Next(|c.sections|, t.section);
      c.(green := c.green[next := true],
         trains := c.trains[i := t.(pastGreen := true, enterTime := time, expected := next)])
    else c
  }

  ghost predicate OnLine(c: Controller) {
    |c.green| == |c.sections| && forall t: nat :: t < |c.trains| ==> c.trains[t].section < |c.sections|
  }

  function UpdateTrains(c: Controller, count: nat, time: real): (r: Controller)
    requires OnLine(c) && count <= |c.trains|
    ensures OnLine(r) && |r.trains| == |c.trains| && r.sections == c.sections && r.clock == c.clock && r.estop == c.estop
    ensures forall t: nat :: t < |c.trains| ==>
              r.trains[t].late == c.trains[t].late && r.trains[t].section == c.trains[t].section
  {
    if count == 0 then c else UpdateTrain(UpdateTrains(c, count - 1, time), count - 1, time)
  }

  /** The largest lateness of the first `count` trains, zero if none is late. */
  function MaxLate(trains: seq<Train>, count: nat): real
    requires count <= |trains|
  {
    if count == 0 then 0.0 else
      var before := MaxLate(trains, count - 1);
      if trains[count - 1].late > before then trains[count - 1].late else before
  }

  /** A lateness without its whole cycles, but not less than a cycle if it is a multiple of it. */
  function SlipOf(late: real, cycle: real): real
    requires cycle > 0.0
    decreases late / cycle
  {
    if late > cycle then OneLess(late, cycle); SlipOf(late - cycle, cycle) else late
  }

  function SlipClock(k: Clock, slip: real, cycle: real): Clock {
    var seconds := k.seconds - slip;
    k.(totalSlip := k.totalSlip + slip,
       seconds := if seconds < 0.0 then seconds + cycle else seconds,
       cycleNumber := if seconds < 0.0 then k.cycleNumber - 1 else k.cycleNumber)
  }

  function Slipped(trains: seq<Train>, slip: real): (r: seq<Train>)
    ensures |r| == |trains|
    ensures forall t :: 0 <= t < |trains| ==> r[t] == trains[t].(late := trains[t].late - slip)
  {
    if trains == [] then [] else
      var n := |trains| - 1;
      Slipped(trains[..n], slip) + [trains[n].(late := trains[n].late - slip)]
  }

  function Slip(c: Controller, cycle: real): Controller
    requires cycle > 0.0
  {
    var maxLate := MaxLate(c.trains, |c.trains|);
    if maxLate > 15.0 then
      var slip := SlipOf(maxLate, cycle);
      c.(clock := SlipClock(c.clock, slip, cycle), trains := Slipped(c.trains, slip))
    else c
  }

  function Update(tt: Timetable, c: Controller, time: real, increment: real): Controller
    requires tt.cycle > 0.0 && OnLine(c)
  {
    var advanced := c.(clock := Advance(c.clock, tt.cycle, time, increment));
    Slip(UpdateTrains(advanced, |c.trains|, time), tt.cycle)
  }

  // ---------------------------------------------------------------- the start

  /** The sections and trains after the first `count` locations have been entered, and whether all were in range. */
  function Place(sections: seq<Section>, trains: seq<Train>, locations: seq<int>, count: nat): (seq<Section>, seq<Train>, bool)
    requires count <= |locations| <= |trains|
    requires forall i :: 0 <= i < |locations| ==> locations[i] >= 0
  {
    if count == 0 then (sections, trains, true) else
    var (done, placed, ok) := Place(sections, trains, locations, count - 1);
    var at := locations[count - 1];
    if !ok || at >= |done| || |placed| != |trains| then (done, placed, false)
    else (done[at := done[at].(hasTrain := true, number := count - 1)],
          placed[count - 1 := placed[count - 1].(section := at, expected := at)], true)
  }

  function InitialState(c: Controller, locations: seq<int>): Controller
    requires |locations| == |c.trains|
    requires forall i :: 0 <= i < |locations| ==> locations[i] >= 0
  {
    var (sections, trains, ok) := Place(c.sections, c.trains, locations, |locations|);
    if ok then c.(sections := sections, trains := trains, green := seq(|c.green|, i => false))
    else c.(sections := sections, trains := trains, estop := true)
  }

  function Timed(tt: Timetable, t: Train): Train
    requires t.section < |tt.location| == |tt.toGreen| == |tt.sectionTime| == |tt.toStation|
  {
    var s := t.section;
    var slot := tt.location[s] + tt.sectionTime[s] - tt.dwell - tt.toDetector;
    t.(slot := slot, timeAtGreen := tt.toGreen[s] - slot, enterTime := -tt.toStation[s], late := 0.0, pastGreen := false)
  }

  function SetTrainTimes(tt: Timetable, c: Controller): Controller
    requires Known(tt, c) && OnLine(c)
  {
    c.(trains := seq(|c.trains|, i requires 0 <= i < |c.trains| => Timed(tt, c.trains[i])))
  }

  function Slotted(tt: Timetable, t: Train, slot: real, k: Clock): Train
    requires tt.cycle > 0.0 && t.section < |tt.toGreen|
  {
    t.(slot := slot, timeAtGreen := GreenAt(0.0, k.seconds, slot, tt.toGreen[t.section], tt.cycle, t.timeAtGreen))
  }

  function SetTimeSlots(tt: Timetable, c: Controller, slots: seq<real>): Controller
    requires Known(tt, c) && OnLine(c) && |slots| == |c.trains|
  {
    c.(trains := seq(|c.trains|, i requires 0 <= i < |c.trains| => Slotted(tt, c.trains[i], slots[i], c.clock)))
  }

  // ---------------------------------------------------------------- runs

  lemma IdentityOnLine(c: Controller)
    requires Identity(c) && |c.green| == |c.sections|
    ensures OnLine(c)
  {
    forall t: nat | t < |c.trains| ensures c.trains[t].section < |c.sections| {
      assert Booked(c, t);
    }
  }

  datatype Event = Crossing(section: int) | Clocked(time: real, increment: real) | Request(at: nat) | Cancel(at: nat)

  ghost predicate InRange(c: Controller, e: Event) {
    (e.Request? || e.Cancel?) ==> e.at < |c.sections|
  }

  function Step(tt: Timetable, c: Controller, e: Event): Controller
    requires Known(tt, c) && InBounds(c) && InRange(c, e)
  {
    match e
    case Crossing(s) => CrossingEvent(tt, c, s)
    case Clocked(time, increment) => Update(tt, c, time, increment)
    case Request(s) => RequestEntry(c, s)
    case Cancel(s) => CancelEntry(c, s)
  }

  lemma CrossingKeepsIdentity(tt: Timetable, c: Controller, section: int)
    requires Known(tt, c) && Identity(c)
    ensures Known(tt, CrossingEvent(tt, c, section)) && Identity(CrossingEvent(tt, c, section))
  {
    hide GreenAt, Lateness;
    var r := CrossingEvent(tt, c, section);
    if Crosses(c, section) {
      var last := Prev(|c.sections|, section);
      var tn := c.sections[last].number;
      assert Held(c, last);
      forall t: nat | t < |c.trains| ensures Booked(r, t) {
        assert Booked(c, t);
      }
      forall s: nat | s < |c.sections| ensures Held(r, s) {
        assert Held(c, s);
      }
    } else {
      SameIdentity(c, r);
    }
  }

  /** Identity is about the trains' sections, the flags and the numbers only. */
  lemma SameIdentity(c: Controller, r: Controller)
    requires Identity(c) && |r.trains| == |c.trains| && |r.sections| == |c.sections|
    requires forall t :: 0 <= t < |c.trains| ==> r.trains[t].section == c.trains[t].section
    requires forall s :: 0 <= s < |c.sections| ==>
               r.sections[s].hasTrain == c.sections[s].hasTrain && r.sections[s].number == c.sections[s].number
    ensures Identity(r)
  {
    forall t: nat | t < |c.trains| ensures Booked(r, t) {
      assert Booked(c, t);
    }
    forall s: nat | s < |c.sections| ensures Held(r, s) {
      assert Held(c, s);
    }
  }

  lemma StepKeepsIdentity(tt: Timetable, c: Controller, e: Event)
    requires Known(tt, c) && Identity(c) && InRange(c, e)
    ensures var r := Step(tt, c, e);
            Known(tt, r) && Identity(r) && |r.sections| == |c.sections| && |r.trains| == |c.trains|
  {
    hide CrossingEvent, Advance, MaxLate, SlipOf, SlipClock;
    match e
    case Crossing(s) =>
      CrossingKeepsIdentity(tt, c, s);
      CrossingSizes(tt, c, s);
    case Clocked(time, increment) =>
      IdentityOnLine(c);
      SameIdentity(c, Update(tt, c, time, increment));
    case Request(s) => SameIdentity(c, RequestEntry(c, s));
    case Cancel(s) => SameIdentity(c, CancelEntry(c, s));
  }

  lemma CrossingSizes(tt: Timetable, c: Controller, section: int)
    requires Known(tt, c) && Identity(c)
    ensures var r := CrossingEvent(tt, c, section);
            |r.sections| == |c.sections| && |r.trains| == |c.trains|
  {
    hide Arrived;
    if Crosses(c, section) {
      assert Held(c, Prev(|c.sections|, section));
    }
  }

  // ---------------------------------------------------------------- nobody overtakes

  /** The numbers of the trains met on the way along some sections. */
  function Order(sections: seq<Section>): seq<int> {
    if sections == [] then [] else Here(sections[0]) + Order(sections[1..])
  }

  lemma OrderFirst(x: Section, rest: seq<Section>)
    ensures Order([x] + rest) == Here(x) + Order(rest)
  {
    assert ([x] + rest)[1..] == rest;
  }

  function Here(x: Section): seq<int> {
    if x.hasTrain then [x.number] else []
  }

  lemma SplitFirst(a: seq<Section>, b: seq<Section>)
    requires a != []
    ensures a == [a[0]] + a[1..] && a + b == [a[0]] + (a[1..] + b)
  {}

  lemma JoinAssociates(a: seq<int>, b: seq<int>, c: seq<int>)
    ensures a + (b + c) == (a + b) + c
  {}

  lemma NothingBefore(b: seq<Section>)
    ensures [] + b == b && Order([]) + Order(b) == Order(b)
  {}

  lemma {:induction false} OrderConcat(a: seq<Section>, b: seq<Section>)
    ensures Order(a + b) == Order(a) + Order(b)
  {
    hide *;
    if a == [] {
      NothingBefore(b);
    } else {
      var x, rest := a[0], a[1..];
      OrderConcat(rest, b);
      SplitFirst(a, b);
      OrderFirst(x, rest);
      OrderFirst(x, rest + b);
      JoinAssociates(Here(x), Order(rest), Order(b));
    }
  }

  lemma OrderOfTwo(x: Section, y: Section)
    ensures Order([x]) == if x.hasTrain then [x.number] else []
    ensures Order([x, y]) == Order([x]) + Order([y])
  {
    assert [x, y] == [x] + [y];
    OrderConcat([x], [y]);
  }

  function TurnedOnce(order: seq<int>): seq<int> {
    if order == [] then order else [order[|order| - 1]] + order[..|order| - 1]
  }

  lemma {:induction false} CrossingKeepsOrder(tt: Timetable, c: Controller, section: int)
    requires Known(tt, c) && Identity(c)
    ensures var r := CrossingEvent(tt, c, section);
            Order(r.sections) ==
            if Crosses(c, section) && section == 0 then TurnedOnce(Order(c.sections)) else Order(c.sections)
  {
    hide Order, Arrived;
    if Crosses(c, section) {
      var n, was, now := |c.sections|, c.sections, CrossingEvent(tt, c, section).sections;
      assert Held(c, Prev(n, section));
      if section == 0 {
        var mid := was[1..n - 1];
        assert was == [was[0]] + mid + [was[n - 1]];
        assert now == [now[0]] + mid + [now[n - 1]];
        OrderAround(was[0], mid, was[n - 1]);
        OrderAround(now[0], mid, now[n - 1]);
      } else {
        var s: nat := section;
        var a, b := was[..s - 1], was[s + 1..];
        assert was == a + [was[s - 1], was[s]] + b;
        assert now == a + [now[s - 1], now[s]] + b;
        OrderInside(a, was[s - 1], was[s], b);
        OrderInside(a, now[s - 1], now[s], b);
      }
    }
  }

  lemma OrderAround(x: Section, mid: seq<Section>, y: Section)
    ensures Order([x] + mid + [y]) == (if x.hasTrain then [x.number] else []) + Order(mid)
                                      + (if y.hasTrain then [y.number] else [])
  {
    hide Order;
    OrderConcat([x] + mid, [y]);
    OrderConcat([x], mid);
    OrderOfTwo(x, y);
    OrderOfTwo(y, x);
  }

  lemma OrderInside(a: seq<Section>, x: Section, y: Section, b: seq<Section>)
    ensures Order(a + [x, y] + b) == Order(a) + (if x.hasTrain then [x.number] else [])
                                     + (if y.hasTrain then [y.number] else []) + Order(b)
  {
    hide Order;
    OrderConcat(a + [x, y], b);
    OrderConcat(a, [x, y]);
    OrderOfTwo(x, y);
    OrderOfTwo(y, x);
  }

  lemma {:induction false} SameOrder(a: seq<Section>, b: seq<Section>)
    requires |a| == |b|
    requires forall s :: 0 <= s < |a| ==> a[s].hasTrain == b[s].hasTrain && a[s].number == b[s].number
    ensures Order(a) == Order(b)
  {
    if a != [] {
      SameOrder(a[1..], b[1..]);
    }
  }

  predicate PassesTheEnd(c: Controller, e: Event) {
    e.Crossing? && e.section == 0 && Crosses(c, 0)
  }

  lemma StepOrder(tt: Timetable, c: Controller, e: Event)
    requires Known(tt, c) && Identity(c) && InRange(c, e)
    ensures Order(Step(tt, c, e).sections) ==
            if PassesTheEnd(c, e) then TurnedOnce(Order(c.sections)) else Order(c.sections)
  {
    hide CrossingEvent, Advance, MaxLate, SlipOf, SlipClock, Order, TurnedOnce;
    match e
    case Crossing(s) => CrossingKeepsOrder(tt, c, s);
    case Clocked(time, increment) => IdentityOnLine(c);
    case Request(s) => SameOrder(c.sections, RequestEntry(c, s).sections);
    case Cancel(s) => SameOrder(c.sections, CancelEntry(c, s).sections);
  }

  ghost predicate AllInRange(c: Controller, es: seq<Event>) {
    forall i :: 0 <= i < |es| ==> InRange(c, es[i])
  }

  function Run(tt: Timetable, c: Controller, es: seq<Event>): (r: Controller)
    requires Known(tt, c) && Identity(c) && AllInRange(c, es)
    ensures Known(tt, r) && Identity(r) && |r.sections| == |c.sections| && |r.trains| == |c.trains|
    decreases |es|
  {
    if es == [] then c else
      StepKeepsIdentity(tt, c, es[0]);
      Run(tt, Step(tt, c, es[0]), es[1..])
  }

  /** How many trains pass from the last section to the first. */
  function Laps(tt: Timetable, c: Controller, es: seq<Event>): nat
    requires Known(tt, c) && Identity(c) && AllInRange(c, es)
    decreases |es|
  {
    if es == [] then 0 else
      StepKeepsIdentity(tt, c, es[0]);
      (if PassesTheEnd(c, es[0]) then 1 else 0) + Laps(tt, Step(tt, c, es[0]), es[1..])
  }

  function Turned(order: seq<int>, times: nat): seq<int>
    decreases times
  {
    if times == 0 then order else Turned(TurnedOnce(order), times - 1)
  }

  /** On every run the trains stay in their cyclic order: it is turned once for every train that passes the end. */
  lemma {:induction false} NobodyOvertakes(tt: Timetable, c: Controller, es: seq<Event>)
    requires Known(tt, c) && Identity(c) && AllInRange(c, es)
    ensures Order(Run(tt, c, es).sections) == Turned(Order(c.sections), Laps(tt, c, es))
    decreases |es|
  {
    hide Step, Order, TurnedOnce;
    if es != [] {
      StepKeepsIdentity(tt, c, es[0]);
      StepOrder(tt, c, es[0]);
      NobodyOvertakes(tt, Step(tt, c, es[0]), es[1..]);
    }
  }

  ghost predicate IsRotation(a: seq<int>, b: seq<int>) {
    exists j: nat :: j <= |a| && b == From(a, j)
  }

  function From(a: seq<int>, j: nat): seq<int>
    requires j <= |a|
  {
    a[j..] + a[..j]
  }

  lemma {:induction false} TurnedIsRotation(a: seq<int>, b: seq<int>, times: nat)
    requires IsRotation(a, b)
    ensures IsRotation(a, Turned(b, times))
    decreases times
  {
    hide From, TurnedOnce;
    if times > 0 {
      var j: nat :| j <= |a| && b == From(a, j);
      TurnOfRotation(a, j);
      TurnedIsRotation(a, TurnedOnce(b), times - 1);
    }
  }

  lemma TurnLast(x: seq<int>, e: int)
    ensures TurnedOnce(x + [e]) == [e] + x
  {}

  lemma TurnOfRotation(a: seq<int>, j: nat)
    requires j <= |a|
    ensures IsRotation(a, TurnedOnce(From(a, j)))
  {
    if a == [] {
      assert TurnedOnce(From(a, j)) == From(a, 0);
    } else {
      hide TurnedOnce;
      var k := if j == 0 then |a| - 1 else j - 1;
      var x := if j == 0 then a[..k] else a[j..] + a[..k];
      TurnLast(x, a[k]);
      assert From(a, j) == x + [a[k]];
      assert From(a, k) == [a[k]] + x;
    }
  }

  /** Each section with a train has exactly one, the one it names, and each train is in exactly one such section;
      and read round the line the trains are in the order they started in. */
  lemma TrainsKeepTheirPlaces(tt: Timetable, c: Controller, es: seq<Event>)
    requires Known(tt, c) && Identity(c) && AllInRange(c, es)
    ensures var r := Run(tt, c, es);
            && (forall s, t :: 0 <= s < |r.sections| && 0 <= t < |r.trains| ==>
                  (r.trains[t].section == s <==> r.sections[s].hasTrain && r.sections[s].number == t))
            && (forall s :: 0 <= s < |r.sections| && r.sections[s].hasTrain ==>
                  0 <= r.sections[s].number < |r.trains|)
            && IsRotation(Order(c.sections), Order(r.sections))
  {
    hide Run, Order, Known;
    var r := Run(tt, c, es);
    forall s, t | 0 <= s < |r.sections| && 0 <= t < |r.trains|
      ensures r.trains[t].section == s <==> r.sections[s].hasTrain && r.sections[s].number == t
    {
      assert Booked(r, t) && Held(r, s);
    }
    forall s | 0 <= s < |r.sections| && r.sections[s].hasTrain ensures 0 <= r.sections[s].number < |r.trains| {
      assert Held(r, s);
    }
    NobodyOvertakes(tt, c, es);
    var order := Order(c.sections);
    assert order == From(order, 0);
    TurnedIsRotation(order, order, Laps(tt, c, es));
  }

  // ---------------------------------------------------------------- the pace clock

  /** The seconds the clock has counted, the slipped ones included. */
  function Counted(k: Clock, cycle: real): real {
    Turns(k.cycleNumber, cycle) + k.seconds + k.totalSlip
  }

  lemma AdvanceCounts(k: Clock, cycle: real, time: real, increment: real)
    requires 0.0 <= k.seconds < cycle
    ensures var a := Advance(k, cycle, time, increment);
            && Counted(a, cycle) == Counted(k, cycle) + increment
            && a.totalSlip == k.totalSlip && a.now == time
            && (0.0 <= increment <= cycle ==> 0.0 <= a.seconds < cycle)
  {
    TurnsAdd(k.cycleNumber, 1, cycle);
  }

  lemma SlipCounts(k: Clock, slip: real, cycle: real)
    requires 0.0 <= k.seconds < cycle && 0.0 < slip <= cycle
    ensures var r := SlipClock(k, slip, cycle);
            Counted(r, cycle) == Counted(k, cycle) && r.totalSlip == k.totalSlip + slip && 0.0 <= r.seconds < cycle
            && r.now == k.now
  {
    TurnsAdd(k.cycleNumber, -1, cycle);
  }

  lemma {:induction false} SlipIsRemainder(late: real, cycle: real) returns (k: nat)
    requires cycle > 0.0 && late > 0.0
    ensures 0.0 < SlipOf(late, cycle) <= cycle
    ensures late == SlipOf(late, cycle) + Turns(k, cycle) && Turns(k, cycle) >= 0.0
    decreases late / cycle
  {
    TurnsAdd(0, 0, cycle);
    if late > cycle {
      OneLess(late, cycle);
      var j := SlipIsRemainder(late - cycle, cycle);
      TurnsAdd(j, 1, cycle);
      k := j + 1;
    } else {
      k := 0;
    }
  }

  lemma {:induction false} MaxLateIsMax(trains: seq<Train>, count: nat)
    requires count <= |trains|
    ensures MaxLate(trains, count) >= 0.0
    ensures forall t :: 0 <= t < count ==> trains[t].late <= MaxLate(trains, count)
    ensures MaxLate(trains, count) == 0.0 || exists t :: 0 <= t < count && trains[t].late == MaxLate(trains, count)
  {
    if count > 0 {
      MaxLateIsMax(trains, count - 1);
    }
  }

  lemma {:induction false} SameMaxLate(a: seq<Train>, b: seq<Train>, count: nat)
    requires count <= |a| == |b| && forall t :: 0 <= t < |a| ==> a[t].late == b[t].late
    ensures MaxLate(a, count) == MaxLate(b, count)
  {
    if count > 0 {
      SameMaxLate(a, b, count - 1);
    }
  }

  function Latest(c: Controller): real {
    MaxLate(c.trains, |c.trains|)
  }

  lemma SlipKeeps(c: Controller, cycle: real)
    requires 0.0 <= c.clock.seconds < cycle
    ensures var r := Slip(c, cycle);
            && |r.trains| == |c.trains|
            && 0.0 <= r.clock.seconds < cycle && Counted(r.clock, cycle) == Counted(c.clock, cycle)
            && (forall t :: 0 <= t < |c.trains| ==>
                  r.trains[t].late + r.clock.totalSlip == c.trains[t].late + c.clock.totalSlip)
            && (Latest(c) <= 15.0 ==> r == c)
            && (Latest(c) > 15.0 ==> Latest(r) < Latest(c) && exists k: nat :: Latest(r) == Turns(k, cycle))
  {
    hide MaxLate, SlipClock, SlipOf, Turns;
    var m, r := Latest(c), Slip(c, cycle);
    if m > 15.0 {
      var slip := SlipOf(m, cycle);
      var k := SlipIsRemainder(m, cycle);
      SlipCounts(c.clock, slip, cycle);
      MaxLateIsMax(c.trains, |c.trains|);
      MaxLateIsMax(r.trains, |r.trains|);
      var t :| 0 <= t < |c.trains| && c.trains[t].late == m;
      assert r.trains[t].late == m - slip;
      assert Latest(r) == Turns(k, cycle);
    }
  }

  /** One update counts its increment and keeps the seconds within the cycle; a slip moves all latenesses together, and
      leaves the latest train late by a whole number of cycles. */
  lemma UpdateKeepsTime(tt: Timetable, c: Controller, time: real, increment: real)
    requires OnLine(c) && 0.0 <= c.clock.seconds < tt.cycle && 0.0 <= increment <= tt.cycle
    ensures var r := Update(tt, c, time, increment);
            && |r.trains| == |c.trains|
            && 0.0 <= r.clock.seconds < tt.cycle
            && Counted(r.clock, tt.cycle) == Counted(c.clock, tt.cycle) + increment
            && (forall t :: 0 <= t < |c.trains| ==>
                  r.trains[t].late + r.clock.totalSlip == c.trains[t].late + c.clock.totalSlip)
            && (Latest(c) <= 15.0 ==> Latest(r) == Latest(c) && r.clock.totalSlip == c.clock.totalSlip)
            && (Latest(c) > 15.0 ==> Latest(r) < Latest(c) && exists k: nat :: Latest(r) == Turns(k, tt.cycle))
  {
    hide Slip, Advance, Counted, MaxLate;
    var a := c.(clock := Advance(c.clock, tt.cycle, time, increment));
    AdvanceCounts(c.clock, tt.cycle, time, increment);
    var u := UpdateTrains(a, |a.trains|, time);
    SameMaxLate(c.trains, u.trains, |c.trains|);
    SlipKeeps(u, tt.cycle);
  }

  /** What may happen on a line with traffic to and from outside. */
  datatype Change = On(event: Event) | Entry(at: nat, spare: Train) | Exit(at: nat)

  ghost predicate Possible(c: Controller, x: Change) {
    match x
    case On(e) => InRange(c, e)
    case Entry(at, spare) => at < |c.sections| && spare.section < |c.sections|
    case Exit(at) => at < |c.sections|
  }

  ghost predicate AllPossible(c: Controller, xs: seq<Change>) {
    forall i :: 0 <= i < |xs| ==> Possible(c, xs[i])
  }

  function Changed(tt: Timetable, c: Controller, x: Change): Controller
    requires Known(tt, c) && InBounds(c) && Possible(c, x)
  {
    match x
    case On(e) => Step(tt, c, e)
    case Entry(at, spare) => EntryEvent(tt, c, at, spare)
    case Exit(at) => ExitEvent(c, at)
  }

  /** With such traffic the numbers stay within bounds, though not always right. */
  lemma ChangeKeepsBounds(tt: Timetable, c: Controller, x: Change)
    requires Known(tt, c) && InBounds(c) && Possible(c, x)
    ensures var r := Changed(tt, c, x); Known(tt, r) && InBounds(r) && |r.sections| == |c.sections|
  {
    hide Arrived, Entered, Advance, MaxLate, SlipOf, SlipClock;
    match x
    case On(e) => StepKeepsBounds(tt, c, e);
    case Entry(at, spare) => EnteredIn(tt, spare, at, c.clock);
    case Exit(at) =>
  }

  lemma EnteredIn(tt: Timetable, spare: Train, section: nat, k: Clock)
    requires section < |tt.location| == |tt.toGreen| == |tt.toEntrance|
    ensures Entered(tt, spare, section, k).section == spare.section
  {}

  lemma StepKeepsBounds(tt: Timetable, c: Controller, e: Event)
    requires Known(tt, c) && InBounds(c) && InRange(c, e)
    ensures var r := Step(tt, c, e); Known(tt, r) && InBounds(r) && |r.sections| == |c.sections|
  {
    hide GreenAt, Lateness, Advance, MaxLate, SlipOf, SlipClock;
  }

  function Traffic(tt: Timetable, c: Controller, xs: seq<Change>): (r: Controller)
    requires Known(tt, c) && InBounds(c) && AllPossible(c, xs)
    ensures Known(tt, r) && InBounds(r)
    decreases |xs|
  {
    if xs == [] then c else
      ChangeKeepsBounds(tt, c, xs[0]);
      Traffic(tt, Changed(tt, c, xs[0]), xs[1..])
  }

  function Increment(x: Change): real {
    if x.On? && x.event.Clocked? then x.event.increment else 0.0
  }

  ghost predicate Increasing(xs: seq<Change>, cycle: real) {
    forall i :: 0 <= i < |xs| ==> 0.0 <= Increment(xs[i]) <= cycle
  }

  function Increments(xs: seq<Change>): real {
    if xs == [] then 0.0 else Increment(xs[0]) + Increments(xs[1..])
  }

  lemma ChangeCounts(tt: Timetable, c: Controller, x: Change)
    requires Known(tt, c) && InBounds(c) && Possible(c, x)
    requires 0.0 <= c.clock.seconds < tt.cycle && 0.0 <= Increment(x) <= tt.cycle
    ensures var r := Changed(tt, c, x);
            && 0.0 <= r.clock.seconds < tt.cycle
            && Counted(r.clock, tt.cycle) == Counted(c.clock, tt.cycle) + Increment(x)
  {
    hide Update, Counted, Arrived, Entered;
    if x.On? && x.event.Clocked? {
      UpdateKeepsTime(tt, c, x.event.time, x.event.increment);
    }
  }

  /** Over every run, trains that come and go included, cycles, seconds and slips together are the time that has
      passed: the clock does not depend on the numbers of the trains being right. */
  lemma {:induction false} TimeIsConserved(tt: Timetable, c: Controller, xs: seq<Change>)
    requires Known(tt, c) && InBounds(c) && AllPossible(c, xs) && Increasing(xs, tt.cycle)
    requires 0.0 <= c.clock.seconds < tt.cycle
    ensures var r := Traffic(tt, c, xs);
            && 0.0 <= r.clock.seconds < tt.cycle
            && Counted(r.clock, tt.cycle) == Counted(c.clock, tt.cycle) + Increments(xs)
    decreases |xs|
  {
    hide Changed, Counted;
    if xs != [] {
      ChangeKeepsBounds(tt, c, xs[0]);
      ChangeCounts(tt, c, xs[0]);
      TimeIsConserved(tt, Changed(tt, c, xs[0]), xs[1..]);
    }
  }

  // ---------------------------------------------------------------- what a crossing books

  /** A train is booked as late as the seconds counted since the start say, apart from whole cycles and from what the
      timetable has slipped; and its light is due when the slipped timetable has it leave the section. */
  lemma CrossingIsBooked(tt: Timetable, c: Controller, section: nat)
    requires Known(tt, c) && Identity(c) && Crosses(c, section)
    ensures Held(c, Prev(|c.sections|, section))
    ensures var t := c.sections[Prev(|c.sections|, section)].number;
            var r := CrossingEvent(tt, c, section).trains[t];
            var counted := Counted(c.clock, tt.cycle);
            && Congruent(r.late + c.clock.totalSlip, counted + r.slot - tt.location[section], tt.cycle)
            && Congruent(r.timeAtGreen, c.clock.now - counted + c.clock.totalSlip + tt.toGreen[section] - r.slot, tt.cycle)
            && c.clock.now - tt.cycle / 2.0 <= r.timeAtGreen <= c.clock.now + tt.cycle / 2.0
            && r.section == section && !r.pastGreen && r.enterTime + tt.toDetector == c.clock.now
            && r.slot == c.trains[t].slot && r.expected == c.trains[t].expected
  {
    hide GreenAt, Lateness, Turns;
    assert Held(c, Prev(|c.sections|, section));
    var k, tn := c.clock, c.sections[Prev(|c.sections|, section)].number;
    var r := CrossingEvent(tt, c, section).trains[tn];
    var whole := Counted(k, tt.cycle) - k.seconds - k.totalSlip;
    LatenessOnSchedule(k.seconds, r.slot, tt.location[section], tt.cycle);
    GreenIsOnSchedule(k.now, k.seconds, r.slot, tt.toGreen[section], tt.cycle, c.trains[tn].timeAtGreen);
    WholeCycles(k.cycleNumber, k.seconds + r.slot - tt.location[section], tt.cycle);
    CongruentChain(r.late, k.seconds + r.slot - tt.location[section], whole + k.seconds + r.slot - tt.location[section], tt.cycle);
    CongruentShift(r.late, whole + k.seconds + r.slot - tt.location[section], k.totalSlip, tt.cycle);
    var due := k.now + tt.toGreen[section] - (k.seconds + r.slot);
    WholeCycles(-k.cycleNumber, due, tt.cycle);
    TurnsAdd(k.cycleNumber, -k.cycleNumber, tt.cycle);
    CongruentChain(r.timeAtGreen, due, due - whole, tt.cycle);
  }

  /** It changes the records of no other train, and no clock. */
  lemma CrossingTouchesOne(tt: Timetable, c: Controller, section: nat, u: nat)
    requires Known(tt, c) && Identity(c) && Crosses(c, section) && u < |c.trains|
    requires c.sections[Prev(|c.sections|, section)].number != u
    ensures var r := CrossingEvent(tt, c, section);
            |r.trains| == |c.trains| && r.trains[u] == c.trains[u] && r.clock == c.clock
  {
    hide Arrived;
  }

  /** A train whose time has come is noted to leave for the next section now; the other records stay. */
  lemma {:induction false} UpdateTrainsRecord(c: Controller, count: nat, time: real, t: nat)
    requires OnLine(c) && count <= |c.trains| && t < |c.trains|
    ensures var was, now := c.trains[t], UpdateTrains(c, count, time).trains[t];
            if t < count && !was.pastGreen && was.timeAtGreen < time
            then now == was.(pastGreen := true, enterTime := time, expected := Next(|c.sections|, was.section))
            else now == was
  {
    if count > 0 {
      UpdateTrainsRecord(c, count - 1, time, t);
    }
  }

  lemma UpdateRecords(tt: Timetable, c: Controller, time: real, increment: real, t: nat)
    requires tt.cycle > 0.0 && OnLine(c) && t < |c.trains|
    ensures var was, r := c.trains[t], Update(tt, c, time, increment);
            && |r.trains| == |c.trains| && r.sections == c.sections && r.estop == c.estop
            && var now := r.trains[t];
            && now.section == was.section && now.slot == was.slot && now.timeAtGreen == was.timeAtGreen
            && (if !was.pastGreen && was.timeAtGreen < time
                then now.pastGreen && now.enterTime == time && now.expected == Next(|c.sections|, was.section)
                else now.pastGreen == was.pastGreen && now.enterTime == was.enterTime && now.expected == was.expected)
  {
    hide Advance, MaxLate, SlipOf, SlipClock;
    var a := c.(clock := Advance(c.clock, tt.cycle, time, increment));
    UpdateTrainsRecord(a, |a.trains|, time, t);
  }

  /** A train that enters is not late; it is given the slot that brings it to its entrance now, as long as that is not
      negative.  A negative slot is moved a cycle away from zero. */
  lemma EntryIsBooked(tt: Timetable, c: Controller, section: nat, spare: Train)
    requires Known(tt, c) && section < |c.sections| && Enters(c, section)
    ensures var r := EntryEvent(tt, c, section, spare);
            && |r.trains| == |c.trains| + 1 && r.trains[..|c.trains|] == c.trains && r.clock == c.clock
            && var t := r.trains[|c.trains|];
            && t.late == 0.0 && t.timeAtGreen == tt.toGreen[section] && t.enterTime + tt.toEntrance[section] == c.clock.now
            && Congruent(t.slot + c.clock.seconds, tt.location[section] + tt.toEntrance[section], tt.cycle)
            && (t.slot >= 0.0 || t.slot < -tt.cycle)
            && t.section == spare.section && t.expected == spare.expected && t.pastGreen == spare.pastGreen
  {
    hide Turns;
    var at := tt.location[section] + tt.toEntrance[section];
    CongruentSelf(at, tt.cycle);
    CongruentOne(at - tt.cycle, tt.cycle);
    assert at - tt.cycle + tt.cycle == at;
  }

  lemma WholeCycles(k: int, x: real, cycle: real)
    ensures Congruent(x, Turns(k, cycle) + x, cycle)
  {
    TurnsAdd(k, -k, cycle);
    assert x == Turns(k, cycle) + x + Turns(-k, cycle);
  }

  // ---------------------------------------------------------------- lights

  /** The train in section `s`, if there is one, has had its light. */
  predicate Due(c: Controller, s: nat)
    requires s < |c.sections|
  {
    var t := c.sections[s].number;
    c.sections[s].hasTrain && 0 <= t < |c.trains| && c.trains[t].pastGreen
  }

  predicate LightTells(c: Controller, s: nat)
    requires s < |c.sections| == |c.green|
  {
    c.green[s] == Due(c, Prev(|c.sections|, s))
  }

  ghost predicate Lights(c: Controller)
    requires |c.sections| == |c.green|
  {
    forall s: nat :: s < |c.sections| ==> LightTells(c, s)
  }

  /** A train that has had its light was past its time. */
  ghost predicate Timely(c: Controller, now: real) {
    forall t :: 0 <= t < |c.trains| && c.trains[t].pastGreen ==> c.trains[t].timeAtGreen < now
  }

  lemma CrossingKeepsLights(tt: Timetable, c: Controller, section: int)
    requires Known(tt, c) && Identity(c) && Lights(c) && Timely(c, c.clock.now)
    ensures var r := CrossingEvent(tt, c, section); |r.green| == |r.sections| && Lights(r) && Timely(r, r.clock.now)
  {
    hide GreenAt, Lateness;
    var r := CrossingEvent(tt, c, section);
    var n := |c.sections|;
    if Crosses(c, section) {
      assert Held(c, Prev(n, section));
      assert Timely(r, r.clock.now);
    }
    forall s: nat | s < n ensures LightTells(r, s) {
      assert LightTells(c, s);
      if Crosses(c, section) {
        assert Held(c, Prev(n, section)) && Held(c, Prev(n, s));
      }
    }
  }

  lemma UpdateTrainLights(c: Controller, i: nat, time: real)
    requires i < |c.trains| && Identity(c) && |c.green| == |c.sections| && OnLine(c) && Lights(c)
    ensures var r := UpdateTrain(c, i, time);
            && |r.green| == |r.sections| && Lights(r) && Identity(r)
            && r.trains[i].pastGreen == (c.trains[i].pastGreen || time > c.trains[i].timeAtGreen)
            && r.trains[i].timeAtGreen == c.trains[i].timeAtGreen
            && forall t :: 0 <= t < |c.trains| && t != i ==> r.trains[t] == c.trains[t]
  {
    var r, n := UpdateTrain(c, i, time), |c.sections|;
    SameIdentity(c, r);
    assert Booked(c, i);
    PrevOfNext(n, c.trains[i].section);
    forall s: nat | s < n ensures LightTells(r, s) {
      assert LightTells(c, s) && Held(c, Prev(n, s));
      if Prev(n, s) == c.trains[i].section {
        assert s == Next(n, c.trains[i].section);
      }
    }
  }

  lemma {:induction false} UpdateTrainsLights(c: Controller, count: nat, time: real)
    requires count <= |c.trains| && Identity(c) && OnLine(c) && Lights(c)
    ensures var r := UpdateTrains(c, count, time);
            && Lights(r) && Identity(r)
            && (forall t :: 0 <= t < |c.trains| ==> r.trains[t].timeAtGreen == c.trains[t].timeAtGreen)
            && (forall t :: 0 <= t < count ==>
                  r.trains[t].pastGreen == (c.trains[t].pastGreen || time > c.trains[t].timeAtGreen))
            && (forall t :: count <= t < |c.trains| ==> r.trains[t] == c.trains[t])
  {
    hide Lights, Identity, UpdateTrain;
    if count > 0 {
      UpdateTrainsLights(c, count - 1, time);
      UpdateTrainLights(UpdateTrains(c, count - 1, time), count - 1, time);
    }
  }

  /** After an update, the trains that have had their light are those past their time. */
  ghost predicate UpToDate(c: Controller, now: real) {
    forall t :: 0 <= t < |c.trains| ==> (c.trains[t].pastGreen <==> c.trains[t].timeAtGreen < now)
  }

  lemma UpdateKeepsLights(tt: Timetable, c: Controller, time: real, increment: real)
    requires Known(tt, c) && Identity(c) && OnLine(c) && Lights(c) && Timely(c, c.clock.now) && time >= c.clock.now
    ensures var r := Update(tt, c, time, increment);
            |r.green| == |r.sections| && Lights(r) && UpToDate(r, time) && r.clock.now == time
  {
    hide UpdateTrains, MaxLate, SlipOf;
    var a := c.(clock := Advance(c.clock, tt.cycle, time, increment));
    SameIdentity(c, a);
    forall s: nat | s < |a.sections| ensures LightTells(a, s) {
      assert LightTells(c, s);
    }
    UpdateTrainsLights(a, |a.trains|, time);
    var u := UpdateTrains(a, |a.trains|, time);
    var r := Slip(u, tt.cycle);
    forall s: nat | s < |r.sections| ensures LightTells(r, s) {
      assert LightTells(u, s);
    }
  }

  /** Time does not run back. */
  predicate InTime(c: Controller, e: Event) {
    e.Clocked? ==> e.time >= c.clock.now
  }

  /** If the event cancels an entry, the train in the section behind has had its light. */
  predicate FindsDue(c: Controller, e: Event) {
    e.Cancel? ==> e.at < |c.sections| && (Cancels(c, e.at) ==> Due(c, Prev(|c.sections|, e.at)))
  }

  ghost predicate Lit(c: Controller) {
    |c.sections| == |c.green| && Lights(c) && Timely(c, c.clock.now)
  }

  /** The lights stay right over an event exactly if it is not a cancellation out of turn. */
  lemma StepKeepsLights(tt: Timetable, c: Controller, e: Event)
    requires Known(tt, c) && Identity(c) && InRange(c, e) && Lit(c) && InTime(c, e)
    ensures Lit(Step(tt, c, e)) <==> FindsDue(c, e)
    ensures Lights(Step(tt, c, e)) ==> FindsDue(c, e)
  {
    hide CrossingEvent, Update;
    match e
    case Crossing(s) => CrossingKeepsLights(tt, c, s);
    case Clocked(time, increment) =>
      IdentityOnLine(c);
      UpdateKeepsLights(tt, c, time, increment);
    case Request(at) =>
      var r := RequestEntry(c, at);
      forall s: nat | s < |r.sections| ensures LightTells(r, s) {
        assert LightTells(c, s);
      }
    case Cancel(at) => CancelKeepsLights(c, at);
  }

  lemma CancelKeepsLights(c: Controller, at: nat)
    requires at < |c.sections| == |c.green| && Lights(c)
    ensures Lights(CancelEntry(c, at)) <==> FindsDue(c, Cancel(at))
  {
    if Cancels(c, at) {
      CancelLightsOutOfTurn(c, at);
    } else {
      forall s: nat | s < |c.sections| ensures LightTells(CancelEntry(c, at), s) {
        assert LightTells(c, s);
      }
    }
  }

  predicate AllInTime(tt: Timetable, c: Controller, es: seq<Event>)
    requires Known(tt, c) && Identity(c) && AllInRange(c, es)
    decreases |es|
  {
    es == [] || (
      StepKeepsIdentity(tt, c, es[0]);
      InTime(c, es[0]) && AllInTime(tt, Step(tt, c, es[0]), es[1..]))
  }

  predicate AllFindDue(tt: Timetable, c: Controller, es: seq<Event>)
    requires Known(tt, c) && Identity(c) && AllInRange(c, es)
    decreases |es|
  {
    es == [] || (
      StepKeepsIdentity(tt, c, es[0]);
      FindsDue(c, es[0]) && AllFindDue(tt, Step(tt, c, es[0]), es[1..]))
  }

  /** The lights are right at the start and after every event of the run. */
  ghost predicate AlwaysLit(tt: Timetable, c: Controller, es: seq<Event>)
    requires Known(tt, c) && Identity(c) && AllInRange(c, es)
    decreases |es|
  {
    && Lights(c)
    && (es == [] || (
      StepKeepsIdentity(tt, c, es[0]);
      AlwaysLit(tt, Step(tt, c, es[0]), es[1..])))
  }

  /** On a run in whose course time does not run back, the lights are right all along exactly if every cancelled
      entry finds the train behind past its light. */
  lemma {:induction false} LitIffCancelsDue(tt: Timetable, c: Controller, es: seq<Event>)
    requires Known(tt, c) && Identity(c) && AllInRange(c, es) && Lit(c) && AllInTime(tt, c, es)
    ensures AlwaysLit(tt, c, es) <==> AllFindDue(tt, c, es)
    ensures AllFindDue(tt, c, es) ==> Lit(Run(tt, c, es))
    decreases |es|
  {
    hide Step, Lights, Timely, FindsDue, InTime;
    if es != [] {
      StepKeepsIdentity(tt, c, es[0]);
      StepKeepsLights(tt, c, es[0]);
      var d := Step(tt, c, es[0]);
      if FindsDue(c, es[0]) {
        LitIffCancelsDue(tt, d, es[1..]);
      }
    }
  }

  /** On every run whose cancelled entries find the train behind past its light, after every update a light is green
      exactly if the section before it has a train and the time booked for that train is past. */
  lemma LightsFollowTimetable(tt: Timetable, c: Controller, es: seq<Event>, time: real, increment: real)
    requires Known(tt, c) && Identity(c) && AllInRange(c, es) && Lit(c)
    requires AllInTime(tt, c, es) && AllFindDue(tt, c, es) && time >= Run(tt, c, es).clock.now
    ensures var r := Step(tt, Run(tt, c, es), Clocked(time, increment));
            |r.green| == |r.sections| &&
            forall s: nat :: s < |r.sections| ==>
              (r.green[s] <==> exists t :: 0 <= t < |r.trains| && r.trains[t].section == Prev(|r.sections|, s)
                                           && r.trains[t].timeAtGreen < time)
  {
    var d := Run(tt, c, es);
    hide Update, Run, Lights, Timely, UpToDate, Known;
    assert |d.green| == |d.sections| by { KnownSizes(tt, d); }
    LitIffCancelsDue(tt, c, es);
    IdentityOnLine(d);
    UpdateKeepsLights(tt, d, time, increment);
    StepKeepsIdentity(tt, d, Clocked(time, increment));
    ReadLights(Step(tt, d, Clocked(time, increment)), time);
  }

  lemma KnownSizes(tt: Timetable, c: Controller)
    requires Known(tt, c)
    ensures |c.green| == |c.sections|
  {}

  lemma ReadLights(r: Controller, time: real)
    requires |r.green| == |r.sections| && Lights(r) && Identity(r) && UpToDate(r, time)
    ensures forall s: nat :: s < |r.sections| ==>
              (r.green[s] <==> exists t :: 0 <= t < |r.trains| && r.trains[t].section == Prev(|r.sections|, s)
                                           && r.trains[t].timeAtGreen < time)
  {
    forall s: nat | s < |r.sections|
      ensures r.green[s] <==> exists t :: 0 <= t < |r.trains| && r.trains[t].section == Prev(|r.sections|, s)
                                          && r.trains[t].timeAtGreen < time
    {
      var p := Prev(|r.sections|, s);
      assert LightTells(r, s) && Held(r, p);
      if r.sections[p].hasTrain {
        assert r.trains[r.sections[p].number].section == p;
      }
      forall t: nat | t < |r.trains| && r.trains[t].section == p ensures r.sections[p].hasTrain && r.sections[p].number == t {
        assert Booked(r, t);
      }
    }
  }

  /** Cancelling an entry turns the light green whatever the timetable says: the light then tells the truth only if the
      train behind has already had its light. */
  lemma CancelLightsOutOfTurn(c: Controller, section: nat)
    requires |c.green| == |c.sections| && section < |c.sections| && Lights(c) && Cancels(c, section)
    ensures Lights(CancelEntry(c, section)) <==> Due(c, Prev(|c.sections|, section))
  {
    var r := CancelEntry(c, section);
    assert LightTells(c, section);
    if Due(c, Prev(|c.sections|, section)) {
      forall s: nat | s < |r.sections| ensures LightTells(r, s) {
        assert LightTells(c, s);
      }
    } else {
      assert !LightTells(r, section);
    }
  }

  // ---------------------------------------------------------------- trains that come and go

  /** An entry keeps the numbering exactly if the unused record happens to name the section: nobody sets it. */
  lemma EntryKeepsIdentity(tt: Timetable, c: Controller, section: nat, spare: Train)
    requires Known(tt, c) && Identity(c) && section < |c.sections| && Enters(c, section)
    ensures Identity(EntryEvent(tt, c, section, spare)) <==> spare.section == section
  {
    var r := EntryEvent(tt, c, section, spare);
    var n := |c.trains|;
    forall t: nat | t < n ensures Booked(r, t) {
      assert Booked(c, t);
    }
    forall s: nat | s < |c.sections| && s != section ensures Held(r, s) {
      assert Held(c, s);
    }
    assert Held(r, section) <==> spare.section == section;
    if spare.section < |c.sections| && spare.section != section {
      assert Held(c, spare.section);
      assert !Booked(r, n);
    }
  }

  /** It keeps the lights exactly if the train behind has not had its light and the unused record says the same. */
  lemma EntryKeepsLights(tt: Timetable, c: Controller, section: nat, spare: Train)
    requires Known(tt, c) && Identity(c) && Lights(c) && section < |c.sections| && Enters(c, section)
    ensures var r := EntryEvent(tt, c, section, spare);
            |r.green| == |r.sections| && (Lights(r) <==> !Due(c, Prev(|c.sections|, section)) && !spare.pastGreen)
  {
    hide Entered;
    var r, n := EntryEvent(tt, c, section, spare), |c.sections|;
    var next := Next(n, section);
    PrevOfNext(n, section);
    forall s: nat | s < n && s != section ensures Due(r, s) == Due(c, s) {
      assert Held(c, s);
    }
    forall s: nat | s < n && s != section && s != next ensures LightTells(r, s) {
      assert LightTells(c, s);
    }
    assert LightTells(c, section) && LightTells(c, next);
    assert Entered(tt, spare, section, c.clock).pastGreen == spare.pastGreen by { EnteredPast(tt, spare, section, c.clock); }
    assert Due(r, section) == spare.pastGreen;
    if Lights(r) {
      assert LightTells(r, section) && LightTells(r, next);
    } else {
      assert !LightTells(r, section) || !LightTells(r, next);
    }
  }

  lemma EnteredPast(tt: Timetable, spare: Train, section: nat, k: Clock)
    requires section < |tt.location| == |tt.toGreen| == |tt.toEntrance|
    ensures Entered(tt, spare, section, k).pastGreen == spare.pastGreen
  {}

  /** An exit ends the numbering: the record of the train that has left goes on naming the section. */
  lemma ExitEndsIdentity(c: Controller, section: nat)
    requires Identity(c) && section < |c.sections| == |c.green| && Leaves(c, section)
    ensures !Identity(ExitEvent(c, section))
  {
    assert Held(c, section);
    assert !Booked(ExitEvent(c, section), c.sections[section].number);
  }

  /** It keeps the lights exactly if the train behind has had its light, and the one that leaves has not. */
  lemma ExitKeepsLights(c: Controller, section: nat)
    requires section < |c.sections| == |c.green| && Lights(c) && Leaves(c, section)
    ensures Lights(ExitEvent(c, section)) <==> Due(c, Prev(|c.sections|, section)) && !Due(c, section)
  {
    var r, n := ExitEvent(c, section), |c.sections|;
    var next := Next(n, section);
    PrevOfNext(n, section);
    forall s: nat | s < n && s != section && s != next ensures LightTells(r, s) {
      assert LightTells(c, s);
    }
    assert LightTells(c, section) && LightTells(c, next);
    if Lights(r) {
      assert LightTells(r, section) && LightTells(r, next);
    } else {
      assert !LightTells(r, section) || !LightTells(r, next);
    }
  }

  /** A train that has left still turns the light green in front of the section it was in, when its time comes. */
  lemma DepartedStillLights(tt: Timetable, c: Controller, section: nat, time: real, increment: real)
    requires Known(tt, c) && Identity(c) && section < |c.sections| && Leaves(c, section)
    requires Held(c, section) && var t := c.trains[c.sections[section].number]; !t.pastGreen && t.timeAtGreen < time
    ensures OnLine(ExitEvent(c, section))
    ensures var r := Update(tt, ExitEvent(c, section), time, increment);
            var next := Next(|c.sections|, section);
            |r.green| == |r.sections| == |c.sections| && r.green[next] && !r.sections[section].hasTrain && !LightTells(r, next)
  {
    hide Slip, Advance;
    IdentityOnLine(c);
    var x := ExitEvent(c, section).(clock := Advance(c.clock, tt.cycle, time, increment));
    DueTrainLights(x, |x.trains|, c.sections[section].number, time);
    PrevOfNext(|c.sections|, section);
    SlipSame(UpdateTrains(x, |x.trains|, time), tt.cycle);
  }

  lemma SlipSame(c: Controller, cycle: real)
    requires cycle > 0.0
    ensures Slip(c, cycle).green == c.green && Slip(c, cycle).sections == c.sections
  {}

  /** Updates only add green lights, and add that of every train past its time. */
  lemma {:induction false} DueTrainLights(c: Controller, count: nat, t: nat, time: real)
    requires OnLine(c) && count <= |c.trains| && t < |c.trains|
    requires !c.trains[t].pastGreen && c.trains[t].timeAtGreen < time
    ensures var r := UpdateTrains(c, count, time);
            && (t >= count ==> r.trains[t] == c.trains[t])
            && (t < count ==> r.green[Next(|c.sections|, c.trains[t].section)])
  {
    if count > 0 {
      DueTrainLights(c, count - 1, t, time);
    }
  }

  // ---------------------------------------------------------------- the start of a run

  ghost predicate Distinct(locations: seq<int>, n: nat) {
    && (forall i :: 0 <= i < |locations| ==> 0 <= locations[i] < n)
    && (forall i, j :: 0 <= i < j < |locations| ==> locations[i] != locations[j])
  }

  lemma {:induction false} PlacePuts(sections: seq<Section>, trains: seq<Train>, locations: seq<int>, count: nat)
    requires count <= |locations| <= |trains| && Distinct(locations, |sections|)
    ensures var (done, placed, ok) := Place(sections, trains, locations, count);
            && ok && |done| == |sections| && |placed| == |trains|
            && (forall t :: 0 <= t < count ==> placed[t].section == locations[t] && placed[t].expected == locations[t])
            && (forall t :: 0 <= t < count ==> done[locations[t]].hasTrain && done[locations[t]].number == t)
            && (forall s :: 0 <= s < |sections| && s !in locations[..count] ==> done[s] == sections[s])
  {
    if count > 0 {
      PlacePuts(sections, trains, locations, count - 1);
      var (done, placed, ok) := Place(sections, trains, locations, count - 1);
      assert locations[..count] == locations[..count - 1] + [locations[count - 1]];
    }
  }

  /** From a line without trains and distinct places for the trains, the bookkeeping and the lights start out right,
      and each train's light is due when the timetable has it leave, in its slot. */
  lemma StartIsSound(tt: Timetable, c: Controller, locations: seq<int>, slots: seq<real>)
    requires Known(tt, c) && |locations| == |slots| == |c.trains| && Distinct(locations, |c.sections|)
    requires forall s :: 0 <= s < |c.sections| ==> !c.sections[s].hasTrain
    ensures var i := InitialState(c, locations); Identity(i) && OnLine(i) && Known(tt, i) && |i.trains| == |c.trains|
    ensures var r := SetTrainTimes(tt, InitialState(c, locations));
            Identity(r) && OnLine(r) && Known(tt, r) && Lit(r) && |r.trains| == |c.trains|
    ensures var r := SetTimeSlots(tt, SetTrainTimes(tt, InitialState(c, locations)), slots);
            && Identity(r) && Known(tt, r) && Lit(r) && |r.trains| == |c.trains| && r.clock == c.clock
            && forall t :: 0 <= t < |r.trains| ==> InSlot(tt, r, t, locations[t], slots[t])
  {
    hide Place, Timed, InSlot, SetTrainTimes, SetTimeSlots;
    var i := InitialState(c, locations);
    PlacePuts(c.sections, c.trains, locations, |locations|);
    assert locations[..|locations|] == locations;
    forall t: nat | t < |i.trains| ensures Booked(i, t) {}
    forall s: nat | s < |i.sections| ensures Held(i, s) {
      if s in locations {
        var t :| 0 <= t < |locations| && locations[t] == s;
      }
    }
    IdentityOnLine(i);
    TimedSound(tt, i);
    SlottedSound(tt, SetTrainTimes(tt, i), slots);
  }

  /** Train t waits in its section for the light that its slot gives it, the nearest one to the start. */
  ghost predicate InSlot(tt: Timetable, c: Controller, t: nat, section: int, slot: real)
    requires Known(tt, c) && t < |c.trains|
  {
    var r := c.trains[t];
    && r.section == section && r.slot == slot && r.section < |c.sections| && OnTime(tt, r)
    && Congruent(r.timeAtGreen, 0.0 + tt.toGreen[r.section] - (c.clock.seconds + slot), tt.cycle)
    && -(tt.cycle / 2.0) <= r.timeAtGreen <= tt.cycle / 2.0
  }

  /** A train that waits on time for its first light. */
  predicate OnTime(tt: Timetable, t: Train) {
    t.section < |tt.toStation| && !t.pastGreen && t.late == 0.0 && t.enterTime == -tt.toStation[t.section] && t.expected == t.section
  }

  /** With the times of its section a train has the slot of the place at which it boards, as far before the end of the
      section as boarding and the way to the detector take; its light is due when that slot comes to the green. */
  lemma OwnTimes(tt: Timetable, c: Controller, t: nat)
    requires Known(tt, c) && OnLine(c) && t < |c.trains|
    ensures var r, s := SetTrainTimes(tt, c), c.trains[t].section;
            && |r.trains| == |c.trains| && r == c.(trains := r.trains)
            && var x := r.trains[t];
            && x.slot + tt.dwell + tt.toDetector == tt.location[s] + tt.sectionTime[s]
            && x.timeAtGreen + x.slot == tt.toGreen[s] && x.enterTime + tt.toStation[s] == 0.0
            && x.section == s && x.expected == c.trains[t].expected && x.late == 0.0 && !x.pastGreen
  {}

  lemma TimedSound(tt: Timetable, i: Controller)
    requires Known(tt, i) && Identity(i) && OnLine(i) && forall s :: 0 <= s < |i.green| ==> !i.green[s]
    requires forall t :: 0 <= t < |i.trains| ==> i.trains[t].expected == i.trains[t].section
    ensures var r := SetTrainTimes(tt, i);
            && Identity(r) && Known(tt, r) && OnLine(r) && Lit(r) && |r.trains| == |i.trains| && r.clock == i.clock
            && forall t :: 0 <= t < |r.trains| ==> OnTime(tt, r.trains[t]) && r.trains[t].section == i.trains[t].section
  {
    var r := SetTrainTimes(tt, i);
    SameIdentity(i, r);
    forall s: nat | s < |r.sections| ensures LightTells(r, s) {
      assert Held(r, Prev(|r.sections|, s));
    }
  }

  lemma SlottedSound(tt: Timetable, c: Controller, slots: seq<real>)
    requires Known(tt, c) && Identity(c) && OnLine(c) && Lit(c) && |slots| == |c.trains|
    requires forall t :: 0 <= t < |c.trains| ==> OnTime(tt, c.trains[t])
    ensures var r := SetTimeSlots(tt, c, slots);
            && Identity(r) && Known(tt, r) && Lit(r) && |r.trains| == |c.trains| && r.clock == c.clock
            && forall t :: 0 <= t < |r.trains| ==> InSlot(tt, r, t, c.trains[t].section, slots[t])
  {
    hide GreenAt, Congruent;
    var r := SetTimeSlots(tt, c, slots);
    SameIdentity(c, r);
    forall s: nat | s < |r.sections| ensures LightTells(r, s) {
      assert LightTells(c, s);
    }
    forall t | 0 <= t < |r.trains| ensures InSlot(tt, r, t, c.trains[t].section, slots[t]) {
      GreenIsOnSchedule(0.0, c.clock.seconds, slots[t], tt.toGreen[c.trains[t].section], tt.cycle, c.trains[t].timeAtGreen);
    }
  }

  /** An entry that may be asked for, and is cancelled, leaves a light green with nobody behind it. */
  lemma CancelledUnlit(tt: Timetable, c: Controller, s: nat)
    requires Known(tt, c) && Identity(c) && Lit(c) && s < |c.sections| && Grants(c, s)
    ensures AllInTime(tt, c, [Request(s), Cancel(s)]) && !AlwaysLit(tt, c, [Request(s), Cancel(s)])
  {
    var es := [Request(s), Cancel(s)];
    StepKeepsIdentity(tt, c, es[0]);
    var d := Step(tt, c, es[0]);
    assert es[1..] == [Cancel(s)];
    StepKeepsIdentity(tt, d, Cancel(s));
    assert AllInTime(tt, d, [Cancel(s)]);
    LitIffCancelsDue(tt, c, es);
    assert !FindsDue(d, Cancel(s));
  }

  /** So the lights do not stay right on every run from the start: a line of three sections of 40 seconds, a train in
      0 that crosses into 1, and an entry into 0 asked for and cancelled. */
  lemma LightsFail() returns (tt: Timetable, c: Controller, locations: seq<int>, slots: seq<real>, es: seq<Event>)
    ensures Known(tt, c) && |locations| == |slots| == |c.trains| && Distinct(locations, |c.sections|)
    ensures forall s :: 0 <= s < |c.sections| ==> !c.sections[s].hasTrain
    ensures Known(tt, InitialState(c, locations)) && OnLine(InitialState(c, locations))
    ensures var r := SetTrainTimes(tt, InitialState(c, locations)); Known(tt, r) && OnLine(r) && |r.trains| == |slots|
    ensures var r := SetTimeSlots(tt, SetTrainTimes(tt, InitialState(c, locations)), slots);
            Known(tt, r) && Identity(r) && AllInRange(r, es) && AllInTime(tt, r, es) && !AlwaysLit(tt, r, es)
  {
    tt := Timetable(120.0, [0.0, 40.0, 80.0], [30.0, 70.0, 110.0], [40.0, 40.0, 40.0], [10.0, 10.0, 10.0], [35.0, 0.0, 0.0],
                    20.0, 10.0);
    var blank := Section(false, false, -1, false);
    c := Controller([blank.(hasEntry := true), blank, blank], [Train(0, 0, 0.0, 0.0, false, 0.0, 0.0)],
                    [false, false, false], Clock(0, 0.0, 0.0, 0.0), false);
    locations, slots := [0], [0.0];
    StartIsSound(tt, c, locations, slots);
    PlaceOne(c.sections, c.trains, 0);
    es := CrossedThenCancelled(tt, SetTimeSlots(tt, SetTrainTimes(tt, InitialState(c, locations)), slots));
  }

  lemma CrossedThenCancelled(tt: Timetable, c: Controller) returns (es: seq<Event>)
    requires Known(tt, c) && Identity(c) && Lit(c) && |c.sections| == 3
    requires forall s :: 0 <= s < 3 ==> c.sections[s].hasTrain == (s == 0) && c.sections[s].hasEntry == (s == 0)
    ensures AllInRange(c, es) && AllInTime(tt, c, es) && !AlwaysLit(tt, c, es)
  {
    hide Arrived;
    es := [Crossing(1), Request(0), Cancel(0)];
    assert es[1..] == [Request(0), Cancel(0)];
    StepKeepsIdentity(tt, c, Crossing(1));
    CrossingKeepsLights(tt, c, 1);
    CancelledUnlit(tt, Step(tt, c, Crossing(1)), 0);
  }

  lemma PlaceOne(sections: seq<Section>, trains: seq<Train>, at: nat)
    requires at < |sections| && |trains| == 1
    ensures Place(sections, trains, [at], 1).0 == sections[at := sections[at].(hasTrain := true, number := 0)]
  {
    assert Place(sections, trains, [at], 0) == (sections, trains, true);
  }

  // ---------------------------------------------------------------- the controller object

  class ControlAlgorithm {
    const tt: Timetable
    var sections: seq<Section>
    var trains: seq<Train>
    var green: seq<bool>
    var clock: Clock
    var estopActive: bool

    ghost function State(): Controller
      reads this
    {
      Controller(sections, trains, green, clock, estopActive)
    }

    constructor (tt: Timetable, hasEntry: seq<bool>, trains: seq<Train>)
      requires tt.cycle > 0.0
      requires |hasEntry| == |tt.location| == |tt.toGreen| == |tt.sectionTime| == |tt.toStation| == |tt.toEntrance|
      ensures this.tt == tt && Known(tt, State()) && this.trains == trains && !estopActive
      ensures clock == Clock(0, 0.0, 0.0, 0.0)
      ensures forall s :: 0 <= s < |sections| ==> sections[s] == Section(hasEntry[s], false, -1, false)
    {
      this.tt := tt;
      this.trains := trains;
      sections := seq(|hasEntry|, i requires 0 <= i < |hasEntry| => Section(hasEntry[i], false, -1, false));
      green := seq(|hasEntry|, i => false);
      clock := Clock(0, 0.0, 0.0, 0.0);
      estopActive := false;
    }

    method Start(locations: seq<int>)
      requires Known(tt, State()) && |locations| == |trains|
      requires forall i :: 0 <= i < |locations| ==> locations[i] >= 0
      modifies this
      ensures State() == InitialState(old(State()), locations)
    {
      var i := 0;
      while i < |locations|
        invariant 0 <= i <= |locations| && |sections| == |old(sections)| && |trains| == |old(trains)|
        invariant Place(old(sections), old(trains), locations, i) == (sections, trains, true)
        invariant green == old(green) && clock == old(clock) && estopActive == old(estopActive)
      {
        var at := locations[i];
        if at >= |sections| {
          estopActive := true;
          PlaceStuck(old(sections), old(trains), locations, i + 1, |locations|);
          return;
        }
        sections := sections[at := sections[at].(hasTrain := true, number := i)];
        trains := trains[i := trains[i].(section := at, expected := at)];
        i := i + 1;
      }
      green := seq(|green|, k => false);
    }

    method SetTimes()
      requires Known(tt, State()) && OnLine(State())
      modifies this`trains
      ensures State() == SetTrainTimes(tt, old(State()))
    {
      var i := 0;
      while i < |trains|
        invariant 0 <= i <= |trains| == |old(trains)|
        invariant forall t :: 0 <= t < i ==> trains[t] == Timed(tt, old(trains)[t])
        invariant forall t :: i <= t < |trains| ==> trains[t] == old(trains)[t]
      {
        var s := trains[i].section;
        var slot := tt.location[s] + tt.sectionTime[s] - tt.dwell - tt.toDetector;
        trains := trains[i := trains[i].(slot := slot, timeAtGreen := tt.toGreen[s] - slot, enterTime := -tt.toStation[s],
                                         late := 0.0, pastGreen := false)];
        i := i + 1;
      }
    }

    method SetSlots(slots: seq<real>)
      requires Known(tt, State()) && OnLine(State()) && |slots| == |trains|
      modifies this`trains
      ensures State() == SetTimeSlots(tt, old(State()), slots)
    {
      hide GreenAt, Lateness;
      var i := 0;
      while i < |slots|
        invariant 0 <= i <= |trains| == |old(trains)|
        invariant forall t :: 0 <= t < i ==> trains[t] == Slotted(tt, old(trains)[t], slots[t], clock)
        invariant forall t :: i <= t < |trains| ==> trains[t] == old(trains)[t]
      {
        trains := trains[i := trains[i].(slot := slots[i])];
        var t := trains[i];
        var timeAtGreen, error := CalcTimeAtGreen(0.0, clock.seconds, t.slot, tt.location[t.section],
                                                  tt.toGreen[t.section], tt.cycle, t.timeAtGreen);
        trains := trains[i := t.(timeAtGreen := timeAtGreen)];
        i := i + 1;
      }
    }

    method ProcessCrossing(section: int)
      requires Known(tt, State()) && InBounds(State())
      modifies this
      ensures State() == CrossingEvent(tt, old(State()), section)
    {
      hide GreenAt, Lateness;
      if section >= |sections| || section < 0 {
        estopActive := true;
        return;
      }
      var last := Prev(|sections|, section);
      if sections[section].hasEntry && sections[section].requested {
        estopActive := true;
        return;
      }
      if sections[section].hasTrain {
        estopActive := true;
        return;
      }
      if !sections[last].hasTrain {
        estopActive := true;
        return;
      }
      var tn := sections[last].number;
      sections := sections[section := sections[section].(hasTrain := true, number := tn)];
      var t := trains[tn];
      var timeAtGreen, error := CalcTimeAtGreen(clock.now, clock.seconds, t.slot, tt.location[section],
                                                tt.toGreen[section], tt.cycle, t.timeAtGreen);
      trains := trains[tn := t.(section := section, pastGreen := false, timeAtGreen := timeAtGreen, late := error,
                                enterTime := clock.now - tt.toDetector)];
      sections := sections[last := sections[last].(hasTrain := false, number := -1)];
      green := green[section := false];
    }

    method ProcessEntry(section: nat, spare: Train)
      requires Known(tt, State()) && section < |sections|
      modifies this
      ensures State() == EntryEvent(tt, old(State()), section, spare)
    {
      if !sections[section].requested {
        estopActive := true;
        return;
      }
      if sections[section].hasTrain {
        estopActive := true;
        return;
      }
      var tn := |trains|;
      sections := sections[section := sections[section].(hasTrain := true, requested := false, number := tn)];
      var t := spare.(timeAtGreen := tt.toGreen[section],
                      slot := tt.location[section] + tt.toEntrance[section] - clock.seconds);
      if t.slot < 0.0 {
        t := t.(slot := t.slot - tt.cycle);
      }
      trains := trains + [t.(enterTime := clock.now - tt.toEntrance[section], late := 0.0)];
      green := green[section := false];
    }

    method ProcessExit(section: nat)
      requires Known(tt, State()) && section < |sections|
      modifies this
      ensures State() == ExitEvent(old(State()), section)
    {
      if !sections[section].hasEntry {
        estopActive := true;
        return;
      }
      if !sections[section].hasTrain {
        estopActive := true;
        return;
      }
      sections := sections[section := sections[section].(hasTrain := false)];
      green := green[section := true];
      sections := sections[section := sections[section].(requested := false)];
    }

    method ProcessRequest(section: nat) returns (ok: bool)
      requires Known(tt, State()) && section < |sections|
      modifies this
      ensures State() == RequestEntry(old(State()), section)
      ensures ok == Grants(old(State()), section)
    {
      if !sections[section].hasEntry {
        estopActive := true;
        return false;
      }
      if sections[section].hasTrain {
        estopActive := true;
        return false;
      }
      var last := Prev(|sections|, section);
      if sections[last].hasTrain {
        estopActive := true;
        return false;
      }
      green := green[section := false];
      sections := sections[section := sections[section].(requested := true)];
      return true;
    }

    method ProcessCancel(section: nat)
      requires Known(tt, State()) && section < |sections|
      modifies this
      ensures State() == CancelEntry(old(State()), section)
    {
      if !sections[section].hasEntry {
        estopActive := true;
        return;
      }
      if !sections[section].requested {
        estopActive := true;
        return;
      }
      if sections[section].hasTrain {
        estopActive := true;
        return;
      }
      green := green[section := true];
      sections := sections[section := sections[section].(requested := false)];
    }

    method UpdateOne(i: nat, time: real)
      requires |green| == |sections| && i < |trains| && trains[i].section < |sections|
      modifies this`green, this`trains
      ensures State() == UpdateTrain(old(State()), i, time) && |trains| == |old(trains)|
    {
      if !trains[i].pastGreen && time > trains[i].timeAtGreen {
        var next := Next(|sections|, trains[i].section);
        trains := trains[i := trains[i].(pastGreen := true)];
        green := green[next := true];
        trains := trains[i := trains[i].(enterTime := time, expected := next)];
      }
    }

    method UpdateAll(time: real, increment: real)
      requires tt.cycle > 0.0 && OnLine(State())
      modifies this
      ensures State() == Update(tt, old(State()), time, increment)
    {
      hide UpdateTrain, Slip;
      clock := clock.(now := time, seconds := clock.seconds + increment);
      if clock.seconds >= tt.cycle {
        clock := clock.(cycleNumber := clock.cycleNumber + 1, seconds := clock.seconds - tt.cycle);
      }
      ghost var advanced := State();
      assert advanced == old(State()).(clock := Advance(old(clock), tt.cycle, time, increment));
      var maxLate := 0.0;
      var i := 0;
      while i < |trains|
        invariant 0 <= i <= |trains| == |advanced.trains|
        invariant State() == UpdateTrains(advanced, i, time)
        invariant maxLate == MaxLate(advanced.trains, i)
      {
        UpdateOne(i, time);
        if trains[i].late > maxLate {
          maxLate := trains[i].late;
        }
        i := i + 1;
      }
      SameMaxLate(advanced.trains, trains, |trains|);
      SlipSchedule(maxLate);
    }

    /** The second half of update. */
    method SlipSchedule(maxLate: real)
      requires tt.cycle > 0.0 && maxLate == Latest(State())
      modifies this
      ensures State() == Slip(old(State()), tt.cycle)
    {
      hide MaxLate;
      if maxLate > 15.0 {
        var slip := maxLate;
        while slip > tt.cycle
          invariant SlipOf(slip, tt.cycle) == SlipOf(maxLate, tt.cycle) && State() == old(State())
          decreases slip / tt.cycle
        {
          OneLess(slip, tt.cycle);
          slip := slip - tt.cycle;
        }
        clock := clock.(totalSlip := clock.totalSlip + slip, seconds := clock.seconds - slip);
        if clock.seconds < 0.0 {
          clock := clock.(cycleNumber := clock.cycleNumber - 1, seconds := clock.seconds + tt.cycle);
        }
        SlipTrains(slip);
      }
    }

    /** The loop at the end of update. */
    method SlipTrains(slip: real)
      modifies this`trains
      ensures trains == Slipped(old(trains), slip)
    {
      hide Slipped;
      var i := 0;
      while i < |trains|
        invariant 0 <= i <= |trains| == |old(trains)|
        invariant forall t :: 0 <= t < i ==> trains[t] == old(trains)[t].(late := old(trains)[t].late - slip)
        invariant forall t :: i <= t < |trains| ==> trains[t] == old(trains)[t]
      {
        trains := trains[i := trains[i].(late := trains[i].late - slip)];
        i := i + 1;
      }
    }
  }

  /** Once a location is out of range nothing more is entered. */
  lemma {:induction false} PlaceStuck(sections: seq<Section>, trains: seq<Train>, locations: seq<int>, bad: nat, count: nat)
    requires bad <= count <= |locations| <= |trains|
    requires forall i :: 0 <= i < |locations| ==> locations[i] >= 0
    requires !Place(sections, trains, locations, bad).2
    ensures Place(sections, trains, locations, count) == Place(sections, trains, locations, bad)
    decreases count
  {
    if bad < count {
      PlaceStuck(sections, trains, locations, bad, count - 1);
    }
  }
}
