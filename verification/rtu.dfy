/** The controller that runs at one station (classic_tcontrol/rtu.cpp). */
module Rtu {
  // Each handler is given twice: as a function on values, used to reason about a whole line of stations, and as a method
  // of the class StationController, proved to compute that function.

  datatype Message =
    | TrainCrossed | LightRed | LightGreen | HaveTrain | NoTrain
    | Stop | Start | ReadyToRun | Alive | Living | Other(code: int)

  datatype Alarm =
    | StartupFailed | LeftOnGreenTooLong | CrossingNotExpected | PartialCount
    | UnexpectedMessage | InvalidMessage | NotValidWhileRunning

  /** Pulses counted for one whole train. */
  const WHEEL_COUNT := 8

  /** Levels of the stop light and brake output. */
  const RED := true
  const GREEN := false

  /** The level the polling loop really outputs once a train has crossed. */
  const LEVEL_AFTER_CROSSING := GREEN

  /** Progress of the start-up handshake. */
  datatype Startup = Startup(
    stopped: bool, starting: bool, fromNext: bool, fromLast: bool, fromCentral: bool, startTime: int)

  /** The wish for a green light and the light output. */
  datatype Lamp = Lamp(allowGreen: bool, centralWantsGreen: bool, isGreen: bool, greenTime: int, light: bool)

  /** The wheel counter and the timer of a count that has begun. */
  datatype Wheels = Wheels(counter: nat, countDetected: bool, countDetectTime: int)

  /** All fields of a controller. */
  datatype Station = Station(startup: Startup, lamp: Lamp, wheels: Wheels, trainInNext: bool, trainInLast: bool)

  /** What a handler sends to its neighbours and to the centre, and the alarms it raises. */
  datatype Effects = Effects(toNext: seq<Message>, toLast: seq<Message>, toCentral: seq<Message>, alarms: seq<Alarm>)
  {
    function Then(e: Effects): Effects {
      Effects(toNext + e.toNext, toLast + e.toLast, toCentral + e.toCentral, alarms + e.alarms)
    }

    lemma ThenNothing()
      ensures Then(NOTHING) == this && NOTHING.Then(this) == this
    {}

    lemma ThenAssociates(e: Effects, f: Effects)
      ensures Then(e).Then(f) == Then(e.Then(f))
    {}
  }

  const NOTHING := Effects([], [], [], [])

  function Raise(a: Alarm): Effects {
    NOTHING.(alarms := [a])
  }

  // ---------------------------------------------------------------- the handlers as functions

  function Reset(s: Station): Station {
    Station(Startup(true, false, false, false, false, s.startup.startTime),
            Lamp(false, false, s.lamp.isGreen, s.lamp.greenTime, RED),
            Wheels(0, false, s.wheels.countDetectTime),
            false, false)
  }

  function EvaluateStoplight(l: Lamp, now: int): Lamp {
    if l.allowGreen && l.centralWantsGreen then l.(light := GREEN, greenTime := now, isGreen := true)
    else l.(light := RED)
  }

  function CheckReadyToStart(s: Station, now: int): (Station, Effects) {
    var u := s.startup;
    if !u.starting then (s.(startup := u.(starting := true, startTime := now)), NOTHING)
    else if u.fromNext && u.fromLast && u.fromCentral then
      (s.(startup := Startup(false, false, false, false, false, u.startTime), wheels := s.wheels.(counter := 0)),
       NOTHING.(toCentral := [ReadyToRun]))
    else (s, NOTHING)
  }

  function CheckStartupProgress(s: Station, now: int): (Station, Effects) {
    if now - s.startup.startTime > 15 then
      (s.(startup := Startup(true, false, false, false, false, s.startup.startTime),
          lamp := s.lamp.(centralWantsGreen := false, allowGreen := false)),
       Raise(StartupFailed))
    else (s, NOTHING)
  }

  function CheckGreenTime(s: Station, now: int): (Station, Effects) {
    if s.lamp.isGreen && now - s.lamp.greenTime > 30 then
      (s.(lamp := s.lamp.(light := RED, isGreen := false)), Raise(LeftOnGreenTooLong))
    else (s, NOTHING)
  }

  /** The poll of the wheel counter; `level` is the output written once a whole train has gone by. */
  function CheckCounter(s: Station, now: int, level: bool): (Station, Effects) {
    var w := s.wheels;
    if w.counter == 0 then (s, NOTHING)
    else if w.counter >= WHEEL_COUNT then
      (Station(s.startup, s.lamp.(allowGreen := false, light := level, isGreen := false),
               w.(countDetected := false, counter := 0), true, false),
       (if s.trainInLast then NOTHING else Raise(CrossingNotExpected)).Then(
       if s.trainInNext then Raise(CrossingNotExpected) else NOTHING).Then(
       Effects([TrainCrossed], [TrainCrossed], [TrainCrossed], [])))
    else if w.countDetected && now - w.countDetectTime > 30 then
      (s.(wheels := w.(countDetected := false, counter := 0)), Raise(PartialCount))
    else if !w.countDetected then (s.(wheels := w.(countDetectTime := now, countDetected := true)), NOTHING)
    else (s, NOTHING)
  }

  function RunOnce(s: Station, now: int, level: bool): (Station, Effects) {
    if s.startup.starting then CheckStartupProgress(s, now)
    else if s.startup.stopped then (s, NOTHING)
    else
      var (s1, e1) := CheckCounter(s, now, level);
      var (s2, e2) := CheckGreenTime(s1, now);
      (s2, e1.Then(e2))
  }

  function Occupancy(occupied: bool): Message {
    if occupied then HaveTrain else NoTrain
  }

  function StartFromCentral(s: Station, prox: bool, now: int): (Station, Effects) {
    var said := [Occupancy(prox)];
    var (s1, e1) := CheckReadyToStart(s.(startup := s.startup.(fromCentral := true), trainInLast := prox), now);
    (s1, (if s.startup.stopped then NOTHING else Raise(NotValidWhileRunning)).Then(Effects(said, said, said, [])).Then(e1))
  }

  function FromCentral(s: Station, m: Message, prox: bool, now: int): (Station, Effects) {
    match m
    case LightRed => (s.(lamp := EvaluateStoplight(s.lamp.(centralWantsGreen := false), now)), NOTHING)
    case LightGreen => (s.(lamp := EvaluateStoplight(s.lamp.(centralWantsGreen := true), now)), NOTHING)
    case Stop => (Reset(s), NOTHING)
    case Alive => (s, NOTHING.(toCentral := [Living]))
    case Start => StartFromCentral(s, prox, now)
    case _ => (s, Raise(InvalidMessage))
  }

  function NextOccupancy(s: Station, occupied: bool, prox: bool, now: int): (Station, Effects) {
    if !s.startup.stopped then (s, Raise(NotValidWhileRunning))
    else CheckReadyToStart(
           Station(s.startup.(fromNext := true), s.lamp.(allowGreen := !occupied && prox), s.wheels, occupied, prox), now)
  }

  function FromNext(s: Station, m: Message, prox: bool, now: int): (Station, Effects) {
    match m
    case TrainCrossed =>
      (s.(trainInNext := false, lamp := s.lamp.(allowGreen := s.lamp.allowGreen || s.trainInLast)),
       if s.trainInNext then NOTHING else Raise(UnexpectedMessage))
    case HaveTrain => NextOccupancy(s, true, prox, now)
    case NoTrain => NextOccupancy(s, false, prox, now)
    case _ => (s, Raise(InvalidMessage))
  }

  function LastOccupancy(s: Station, now: int): (Station, Effects) {
    if !s.startup.stopped then (s, Raise(NotValidWhileRunning))
    else CheckReadyToStart(s.(startup := s.startup.(fromLast := true)), now)
  }

  function FromLast(s: Station, m: Message, now: int): (Station, Effects) {
    match m
    case TrainCrossed =>
      (s.(trainInLast := true, lamp := s.lamp.(allowGreen := s.lamp.allowGreen || !s.trainInNext)),
       if s.trainInLast then Raise(UnexpectedMessage) else NOTHING)
    case HaveTrain => LastOccupancy(s, now)
    case NoTrain => LastOccupancy(s, now)
    case _ => (s, Raise(InvalidMessage))
  }

  predicate Running(r: Station) {
    !r.startup.stopped && !r.startup.starting
  }

  // ---------------------------------------------------------------- what polls and messages come to

  /** A poll of a running station: a light that has been green for more than thirty seconds goes red, and is told of;
      the light after a crossing is the level given; any other light stays. */
  lemma PolledLight(s: Station, now: int, level: bool)
    requires Running(s)
    ensures
      var (r, e) := RunOnce(s, now, level);
      var crossed, late := s.wheels.counter >= WHEEL_COUNT, s.lamp.isGreen && now - s.lamp.greenTime > 30;
      && r.lamp.light == (if crossed then level else if late then RED else s.lamp.light)
      && r.lamp.isGreen == (s.lamp.isGreen && !crossed && !late) && r.lamp.greenTime == s.lamp.greenTime
      && r.lamp.centralWantsGreen == s.lamp.centralWantsGreen
      && (LeftOnGreenTooLong in e.alarms <==> late && !crossed)
      && e.toCentral == if crossed then [TrainCrossed] else []
  {}

  /** A partial count starts a timer at the poll that first finds it, and is discarded at the first poll more than
      thirty seconds later that still finds it partial. */
  lemma PolledTimer(s: Station, now: int, level: bool)
    requires Running(s)
    ensures
      var (r, e) := RunOnce(s, now, level);
      var w := s.wheels;
      var partial := 0 < w.counter < WHEEL_COUNT;
      && (PartialCount in e.alarms <==> partial && w.countDetected && now - w.countDetectTime > 30)
      && (PartialCount in e.alarms ==> r.wheels.counter == 0 && !r.wheels.countDetected)
      && (partial && PartialCount !in e.alarms ==> r.wheels.counter == w.counter && r.wheels.countDetected
                                                   && r.wheels.countDetectTime == if w.countDetected then w.countDetectTime else now)
      && (w.counter == 0 ==> r.wheels == w)
      && (w.counter >= WHEEL_COUNT ==> r.wheels.counter == 0 && !r.wheels.countDetected)
  {}

  /** Requests of the centre: red is red at once, green is green exactly with leave; the others are answered, or
      refused with an alarm and no change. */
  lemma CentreIsAnswered(s: Station, m: Message, prox: bool, now: int)
    ensures
      var (r, e) := FromCentral(s, m, prox, now);
      && (m == LightRed ==> r.lamp.light == RED && !r.lamp.centralWantsGreen && e == NOTHING)
      && (m == LightGreen ==> r.lamp.light == (if s.lamp.allowGreen then GREEN else RED) && r.lamp.centralWantsGreen && e == NOTHING)
      && (m == LightGreen && s.lamp.allowGreen ==> r.lamp.isGreen && r.lamp.greenTime == now)
      && (m == LightRed || m == LightGreen ==>
            && r.startup == s.startup && r.wheels == s.wheels && r.lamp.allowGreen == s.lamp.allowGreen
            && r.trainInNext == s.trainInNext && r.trainInLast == s.trainInLast)
      && (m == Alive ==> r == s && e == NOTHING.(toCentral := [Living]))
      && (m == Stop ==> r.startup.stopped && !r.startup.starting && r.lamp.light == RED && !r.lamp.allowGreen
                        && !r.lamp.centralWantsGreen && r.wheels.counter == 0 && !r.trainInNext && !r.trainInLast && e == NOTHING)
      && (m == Start ==>
            && var word := if prox then HaveTrain else NoTrain;
            && e.toNext == [word] && e.toLast == [word] && e.toCentral != [] && e.toCentral[0] == word
            && (NotValidWhileRunning in e.alarms <==> !s.startup.stopped))
      && (m !in [LightRed, LightGreen, Alive, Stop, Start] ==> r == s && e == Raise(InvalidMessage))
  {}

  /** Words of the neighbours: a crossing that was not to be expected is told of, an occupancy word to a station that
      is not stopped and any other message are refused with an alarm and no change. */
  lemma NeighboursAreHeard(s: Station, m: Message, prox: bool, now: int)
    ensures
      var (r, e) := FromNext(s, m, prox, now);
      && (m == TrainCrossed ==> (UnexpectedMessage in e.alarms <==> !s.trainInNext) && !r.trainInNext && r.trainInLast == s.trainInLast)
      && (m == HaveTrain || m == NoTrain ==> !s.startup.stopped ==> r == s && e == Raise(NotValidWhileRunning))
      && (m !in [TrainCrossed, HaveTrain, NoTrain] ==> r == s && e == Raise(InvalidMessage))
    ensures
      var (r, e) := FromLast(s, m, now);
      && (m == TrainCrossed ==> (UnexpectedMessage in e.alarms <==> s.trainInLast) && r.trainInLast && r.trainInNext == s.trainInNext)
      && (m == HaveTrain || m == NoTrain ==> !s.startup.stopped ==> r == s && e == Raise(NotValidWhileRunning))
      && (m !in [TrainCrossed, HaveTrain, NoTrain] ==> r == s && e == Raise(InvalidMessage))
  {}

  // ---------------------------------------------------------------- start-up handshake

  /** One of the three messages a stopped station waits for. */
  datatype Hello = CentralStart | NextSays(occupied: bool) | LastSays(occupied: bool)

  /** Such a message, with what the proximity sensor reads and the time when it is heard. */
  datatype Greeting = Greeting(hello: Hello, prox: bool, now: int)

  function Greet(s: Station, g: Greeting): Station {
    match g.hello
    case CentralStart => FromCentral(s, Start, g.prox, g.now).0
    case NextSays(o) => FromNext(s, Occupancy(o), g.prox, g.now).0
    case LastSays(o) => FromLast(s, Occupancy(o), g.now).0
  }

  /** The station after turns of the polling loop at the given times. */
  function Polled(s: Station, times: seq<int>): Station {
    if times == [] then s else RunOnce(Polled(s, times[..|times| - 1]), times[|times| - 1], LEVEL_AFTER_CROSSING).0
  }

  /** One message from each of the three parties, in any order; the next station says `occupied`. */
  ghost predicate OneFromEach(gs: seq<Greeting>, occupied: bool) {
    && |gs| == 3
    && (exists i :: 0 <= i < 3 && gs[i].hello.CentralStart?)
    && (exists i :: 0 <= i < 3 && gs[i].hello == NextSays(occupied))
    && (exists i :: 0 <= i < 3 && gs[i].hello.LastSays?)
  }

  /** Running, with the rule "green only with a train behind and none in front" established. */
  predicate Started(r: Station, prox: bool, occupied: bool) {
    StartedWith(r, prox, prox, occupied)
  }

  /** Running; the sensor was read at `behind` for the train behind and at `leave` for the leave to go green. */
  predicate StartedWith(r: Station, behind: bool, leave: bool, occupied: bool) {
    && r.startup == Startup(false, false, false, false, false, r.startup.startTime)
    && r.lamp.light == RED && r.wheels.counter == 0 && !r.wheels.countDetected
    && r.trainInLast == behind && r.trainInNext == occupied
    && r.lamp.allowGreen == (leave && !occupied)
  }

  /** What a stopped station has heard since time `since`: whom from, and what the sensor read then. */
  datatype Heard = Heard(central: bool, next: bool, last: bool, occupied: bool, behind: bool, leave: bool, since: int)
  {
    predicate Anybody() {
      central || next || last
    }

    predicate Everybody() {
      central && next && last
    }

    function Add(g: Greeting): Heard {
      var h := this.(since := if Anybody() then since else g.now);
      match g.hello
      case CentralStart => h.(central := true, behind := g.prox)
      case NextSays(o) => h.(next := true, occupied := o, behind := g.prox, leave := g.prox)
      case LastSays(_) => h.(last := true)
    }

    predicate Has(h: Hello) {
      match h
      case CentralStart => central
      case NextSays(_) => next
      case LastSays(_) => last
    }
  }

  const NOBODY := Heard(false, false, false, false, false, false, 0)

  /** A stopped station that has heard h, and not yet from everybody; wheels may pass meanwhile. */
  predicate Waiting(r: Station, h: Heard) {
    && !h.Everybody()
    && r.startup == Startup(true, h.Anybody(), h.next, h.last, h.central, r.startup.startTime)
    && r.lamp.light == RED && !r.wheels.countDetected
    && (h.Anybody() ==> r.startup.startTime == h.since)
    && (h.central || h.next ==> r.trainInLast == h.behind)
    && (h.next ==> r.trainInNext == h.occupied && r.lamp.allowGreen == (h.leave && !h.occupied))
  }

  ghost predicate HasHeard(r: Station, h: Heard) {
    if h.Everybody() then StartedWith(r, h.behind, h.leave, h.occupied) else Waiting(r, h)
  }

  lemma OneMoreGreeting(r: Station, h: Heard, g: Greeting)
    requires Waiting(r, h) && !h.Has(g.hello)
    ensures HasHeard(Greet(r, g), h.Add(g))
  {
    hide Greet, HasHeard, Waiting;
    match g.hello
    case CentralStart => CentralGreets(r, h, g);
    case NextSays(_) => NextGreets(r, h, g);
    case LastSays(_) => LastGreets(r, h, g);
  }

  lemma CentralGreets(r: Station, h: Heard, g: Greeting)
    requires Waiting(r, h) && !h.central && g.hello.CentralStart?
    ensures HasHeard(Greet(r, g), h.Add(g))
  {}

  lemma NextGreets(r: Station, h: Heard, g: Greeting)
    requires Waiting(r, h) && !h.next && g.hello.NextSays?
    ensures HasHeard(Greet(r, g), h.Add(g))
  {}

  lemma LastGreets(r: Station, h: Heard, g: Greeting)
    requires Waiting(r, h) && !h.last && g.hello.LastSays?
    ensures HasHeard(Greet(r, g), h.Add(g))
  {}

  predicate InTime(times: seq<int>, since: int) {
    forall i :: 0 <= i < |times| ==> times[i] - since <= 15
  }

  /** What is left of h after turns of the polling loop: all of it while they come within fifteen seconds
      of the first message; at a later one the station forgets. */
  function Kept(h: Heard, times: seq<int>): Heard {
    if h.Anybody() && !InTime(times, h.since) then NOBODY else h
  }

  lemma {:induction false} PolledWaiting(r: Station, h: Heard, times: seq<int>)
    requires Waiting(r, h)
    ensures Waiting(Polled(r, times), Kept(h, times))
    ensures Kept(h, times) == h ==> Polled(r, times) == r
  {
    if times != [] {
      PolledWaiting(r, h, times[..|times| - 1]);
    }
  }

  /** What a station sends when it is greeted. */
  function Said(s: Station, g: Greeting): Effects {
    match g.hello
    case CentralStart => FromCentral(s, Start, g.prox, g.now).1
    case NextSays(o) => FromNext(s, Occupancy(o), g.prox, g.now).1
    case LastSays(o) => FromLast(s, Occupancy(o), g.now).1
  }

  /** The centre hears that the station is ready exactly with the last of the three greetings. */
  lemma ReadyIsTold(r: Station, h: Heard, g: Greeting)
    requires Waiting(r, h) && !h.Has(g.hello)
    ensures ReadyToRun in Said(r, g).toCentral <==> h.Add(g).Everybody()
    ensures Said(r, g).alarms == []
  {
    hide Said, Waiting;
    match g.hello
    case CentralStart => CentralTells(r, h, g);
    case NextSays(_) => NextTells(r, h, g);
    case LastSays(_) => LastTells(r, h, g);
  }

  lemma CentralTells(r: Station, h: Heard, g: Greeting)
    requires Waiting(r, h) && !h.central && g.hello.CentralStart?
    ensures ReadyToRun in Said(r, g).toCentral <==> h.Add(g).Everybody()
    ensures Said(r, g).alarms == []
  {}

  lemma NextTells(r: Station, h: Heard, g: Greeting)
    requires Waiting(r, h) && !h.next && g.hello.NextSays?
    ensures ReadyToRun in Said(r, g).toCentral <==> h.Add(g).Everybody()
    ensures Said(r, g).alarms == []
  {}

  lemma LastTells(r: Station, h: Heard, g: Greeting)
    requires Waiting(r, h) && !h.last && g.hello.LastSays?
    ensures ReadyToRun in Said(r, g).toCentral <==> h.Add(g).Everybody()
    ensures Said(r, g).alarms == []
  {}

  /** A start-up that takes too long is told of, and leaves no wish for green and no leave. */
  lemma FailureIsTold(r: Station, h: Heard, now: int)
    requires Waiting(r, h)
    ensures
      var (q, e) := RunOnce(r, now, LEVEL_AFTER_CROSSING);
      if h.Anybody() && now - h.since > 15
      then e == Raise(StartupFailed) && !q.lamp.allowGreen && !q.lamp.centralWantsGreen && q.lamp.light == RED
      else q == r && e == NOTHING
  {}

  /** The reading that is kept for the train behind: the one at the later of the messages that take one. */
  function Behind(gs: seq<Greeting>): bool
    requires |gs| == 3
  {
    if gs[2].hello.LastSays? then gs[1].prox else gs[2].prox
  }

  /** The reading at the message of the next station, on which the leave to go green depends. */
  function Leave(gs: seq<Greeting>): bool
    requires |gs| == 3
  {
    if gs[0].hello.NextSays? then gs[0].prox else if gs[1].hello.NextSays? then gs[1].prox else gs[2].prox
  }

  /** Exactly if no turn came late, the three messages are all heard, with the readings they came with. */
  lemma AllHeard(gs: seq<Greeting>, early: seq<int>, late: seq<int>, occupied: bool)
    requires OneFromEach(gs, occupied)
    ensures
      var one := Kept(NOBODY.Add(gs[0]), early);
      var two := Kept(one.Add(gs[1]), late);
      var all := two.Add(gs[2]);
      && !one.Has(gs[1].hello) && !one.Add(gs[1]).Everybody() && !two.Has(gs[2].hello)
      && (all.Everybody() <==> InTime(early, gs[0].now) && InTime(late, gs[0].now))
      && (all.Everybody() ==> all.behind == Behind(gs) && all.leave == Leave(gs) && all.occupied == occupied)
  {
    var a, b, c := gs[0], gs[1], gs[2];
    var ok1 := InTime(early, a.now);
    var one := if ok1 then NOBODY.Add(a) else NOBODY;
    var ok2 := InTime(late, one.Add(b).since);
    assert gs == [a, b, c];
    InSomeOrder(a, b, c, occupied);
    ThreeHeard(a, b, c, ok1, ok2, occupied);
    hide InTime, OneFromEach, Behind, Leave, Orders;
  }

  /** The orders in which the three can come. */
  predicate Orders(a: Hello, b: Hello, c: Hello, occupied: bool) {
    && (a.CentralStart? || b.CentralStart? || c.CentralStart?)
    && (a == NextSays(occupied) || b == NextSays(occupied) || c == NextSays(occupied))
    && (a.LastSays? || b.LastSays? || c.LastSays?)
  }

  lemma InSomeOrder(a: Greeting, b: Greeting, c: Greeting, occupied: bool)
    requires OneFromEach([a, b, c], occupied)
    ensures Orders(a.hello, b.hello, c.hello, occupied)
  {}

  /** The same, told only whether the turns after the first and the second message came in time. */
  lemma ThreeHeard(a: Greeting, b: Greeting, c: Greeting, ok1: bool, ok2: bool, occupied: bool)
    requires Orders(a.hello, b.hello, c.hello, occupied)
    ensures
      var one := if ok1 then NOBODY.Add(a) else NOBODY;
      var two := if ok2 then one.Add(b) else NOBODY;
      var all := two.Add(c);
      && !one.Has(b.hello) && !one.Add(b).Everybody() && !two.Has(c.hello)
      && (all.Everybody() <==> ok1 && ok2)
      && (all.Everybody() ==> all.behind == Behind([a, b, c]) && all.leave == Leave([a, b, c]) && all.occupied == occupied)
  {}

  /** Whatever the order of the three messages and the turns of the polling loop between them, a reset
      station is not running before the third, and is running after it exactly if no turn came more than
      fifteen seconds after the first.  The green rule is then established exactly if the segment in front
      is occupied or the two readings of the sensor agree. */
  lemma HandshakeInAnyOrder(s: Station, gs: seq<Greeting>, early: seq<int>, late: seq<int>, occupied: bool)
    requires OneFromEach(gs, occupied)
    ensures
      var before := Polled(Greet(Polled(Greet(Reset(s), gs[0]), early), gs[1]), late);
      var r := Greet(before, gs[2]);
      && before.startup.stopped
      && (Running(r) <==> InTime(early, gs[0].now) && InTime(late, gs[0].now))
      && (Running(r) ==> StartedWith(r, Behind(gs), Leave(gs), occupied))
      && (Running(r) ==> (Started(r, Behind(gs), occupied) <==> occupied || Behind(gs) == Leave(gs)))
  {
    hide Greet, Polled, InTime, Behind, Leave, Reset;
    AllHeard(gs, early, late, occupied);
    ResetWaits(s);
    var one := Kept(NOBODY.Add(gs[0]), early);
    var two := Kept(one.Add(gs[1]), late);
    OneMoreGreeting(Reset(s), NOBODY, gs[0]);
    PolledWaiting(Greet(Reset(s), gs[0]), NOBODY.Add(gs[0]), early);
    var s1 := Polled(Greet(Reset(s), gs[0]), early);
    OneMoreGreeting(s1, one, gs[1]);
    PolledWaiting(Greet(s1, gs[1]), one.Add(gs[1]), late);
    OneMoreGreeting(Polled(Greet(s1, gs[1]), late), two, gs[2]);
  }

  lemma ResetWaits(s: Station)
    ensures Waiting(Reset(s), NOBODY)
  {}

  // ---------------------------------------------------------------- the controller

  class StationController {
    var startup: Startup
    var lamp: Lamp
    var wheels: Wheels
    var trainInNext: bool
    var trainInLast: bool
    /** Everything given to the control object so far. */
    var sent: Effects

    ghost function State(): Station
      reads this
    {
      Station(startup, lamp, wheels, trainInNext, trainInLast)
    }

    constructor (startTime: int, greenTime: int, isGreen: bool, countDetectTime: int)
      ensures State() == Reset(State())
      ensures sent == NOTHING
    {
      startup := Startup(true, false, false, false, false, startTime);
      lamp := Lamp(false, false, isGreen, greenTime, RED);
      wheels := Wheels(0, false, countDetectTime);
      trainInNext, trainInLast := false, false;
      sent := NOTHING;
    }

    method DoReset()
      modifies this
      ensures State() == Reset(old(State())) && sent == old(sent)
    {
      startup := Startup(true, false, false, false, false, startup.startTime);
      lamp := Lamp(false, false, lamp.isGreen, lamp.greenTime, RED);
      wheels := Wheels(0, false, wheels.countDetectTime);
      trainInNext := false;
      trainInLast := false;
    }

    method EvaluateLight(now: int)
      modifies this
      ensures State() == old(State()).(lamp := EvaluateStoplight(old(lamp), now)) && sent == old(sent)
    {
      if lamp.allowGreen && lamp.centralWantsGreen {
        lamp := lamp.(light := GREEN, greenTime := now, isGreen := true);
      } else {
        lamp := lamp.(light := RED);
      }
    }

    method CheckReady(now: int)
      modifies this
      ensures State() == CheckReadyToStart(old(State()), now).0
      ensures sent == old(sent).Then(CheckReadyToStart(old(State()), now).1)
    {
      sent.ThenNothing();
      if !startup.starting {
        startup := startup.(starting := true, startTime := now);
      } else if startup.fromNext && startup.fromLast && startup.fromCentral {
        startup := startup.(fromNext := false, fromLast := false, fromCentral := false, starting := false, stopped := false);
        wheels := wheels.(counter := 0);
        sent := sent.Then(NOTHING.(toCentral := [ReadyToRun]));
      }
    }

    method CheckProgress(now: int)
      modifies this
      ensures State() == CheckStartupProgress(old(State()), now).0
      ensures sent == old(sent).Then(CheckStartupProgress(old(State()), now).1)
    {
      sent.ThenNothing();
      if now - startup.startTime > 15 {
        sent := sent.Then(Raise(StartupFailed));
        startup := Startup(true, false, false, false, false, startup.startTime);
        lamp := lamp.(centralWantsGreen := false, allowGreen := false);
      }
    }

    method CheckGreen(now: int)
      modifies this
      ensures State() == CheckGreenTime(old(State()), now).0
      ensures sent == old(sent).Then(CheckGreenTime(old(State()), now).1)
    {
      sent.ThenNothing();
      if lamp.isGreen && now - lamp.greenTime > 30 {
        sent := sent.Then(Raise(LeftOnGreenTooLong));
        lamp := lamp.(light := RED, isGreen := false);
      }
    }

    method PollCounter(now: int)
      modifies this
      ensures State() == CheckCounter(old(State()), now, LEVEL_AFTER_CROSSING).0
      ensures sent == old(sent).Then(CheckCounter(old(State()), now, LEVEL_AFTER_CROSSING).1)
    {
      sent.ThenNothing();
      var counts := wheels.counter;
      if counts > 0 {
        if counts >= WHEEL_COUNT {
          var said := NOTHING;
          if !trainInLast {
            said := Raise(CrossingNotExpected);
          }
          if trainInNext {
            said := said.Then(Raise(CrossingNotExpected));
          } else {
            said.ThenNothing();
          }
          trainInNext := true;
          trainInLast := false;
          lamp := lamp.(allowGreen := false, light := LEVEL_AFTER_CROSSING, isGreen := false);
          wheels := wheels.(countDetected := false, counter := 0);
          sent := sent.Then(said.Then(Effects([TrainCrossed], [TrainCrossed], [TrainCrossed], [])));
        } else if wheels.countDetected && now - wheels.countDetectTime > 30 {
          sent := sent.Then(Raise(PartialCount));
          wheels := wheels.(countDetected := false, counter := 0);
        } else if !wheels.countDetected {
          wheels := wheels.(countDetectTime := now, countDetected := true);
        }
      }
    }

    /** One turn of the polling loop. */
    method Run(now: int)
      modifies this
      ensures State() == RunOnce(old(State()), now, LEVEL_AFTER_CROSSING).0
      ensures sent == old(sent).Then(RunOnce(old(State()), now, LEVEL_AFTER_CROSSING).1)
    {
      sent.ThenNothing();
      if startup.starting {
        CheckProgress(now);
        return;
      }
      if startup.stopped {
        return;
      }
      ghost var e1 := CheckCounter(State(), now, LEVEL_AFTER_CROSSING);
      sent.ThenAssociates(e1.1, CheckGreenTime(e1.0, now).1);
      PollCounter(now);
      CheckGreen(now);
    }

    method HearStart(prox: bool, now: int)
      modifies this
      ensures State() == StartFromCentral(old(State()), prox, now).0
      ensures sent == old(sent).Then(StartFromCentral(old(State()), prox, now).1)
    {
      var msg := if prox then HaveTrain else NoTrain;
      var said := (if startup.stopped then NOTHING else Raise(NotValidWhileRunning)).Then(Effects([msg], [msg], [msg], []));
      startup := startup.(fromCentral := true);
      trainInLast := prox;
      sent.ThenAssociates(said, CheckReadyToStart(State(), now).1);
      sent := sent.Then(said);
      CheckReady(now);
    }

    method ProcessCentralMessage(m: Message, prox: bool, now: int)
      modifies this
      ensures State() == FromCentral(old(State()), m, prox, now).0
      ensures sent == old(sent).Then(FromCentral(old(State()), m, prox, now).1)
    {
      sent.ThenNothing();
      match m
      case LightRed =>
        lamp := lamp.(centralWantsGreen := false);
        EvaluateLight(now);
      case LightGreen =>
        lamp := lamp.(centralWantsGreen := true);
        EvaluateLight(now);
      case Stop =>
        DoReset();
      case Alive =>
        sent := sent.Then(NOTHING.(toCentral := [Living]));
      case Start =>
        HearStart(prox, now);
      case _ =>
        sent := sent.Then(Raise(InvalidMessage));
    }

    method HearNextOccupancy(occupied: bool, prox: bool, now: int)
      modifies this
      ensures State() == NextOccupancy(old(State()), occupied, prox, now).0
      ensures sent == old(sent).Then(NextOccupancy(old(State()), occupied, prox, now).1)
    {
      if !startup.stopped {
        sent := sent.Then(Raise(NotValidWhileRunning));
      } else {
        startup := startup.(fromNext := true);
        trainInNext := occupied;
        trainInLast := prox;
        lamp := lamp.(allowGreen := !trainInNext && trainInLast);
        CheckReady(now);
      }
    }

    method ProcessNextNeighborMessage(m: Message, prox: bool, now: int)
      modifies this
      ensures State() == FromNext(old(State()), m, prox, now).0
      ensures sent == old(sent).Then(FromNext(old(State()), m, prox, now).1)
    {
      sent.ThenNothing();
      match m
      case TrainCrossed =>
        if !trainInNext {
          sent := sent.Then(Raise(UnexpectedMessage));
        }
        trainInNext := false;
        if trainInLast {
          lamp := lamp.(allowGreen := true);
        }
      case HaveTrain | NoTrain =>
        HearNextOccupancy(m == HaveTrain, prox, now);
      case _ =>
        sent := sent.Then(Raise(InvalidMessage));
    }

    method HearLastOccupancy(now: int)
      modifies this
      ensures State() == LastOccupancy(old(State()), now).0
      ensures sent == old(sent).Then(LastOccupancy(old(State()), now).1)
    {
      if !startup.stopped {
        sent := sent.Then(Raise(NotValidWhileRunning));
      } else {
        startup := startup.(fromLast := true);
        CheckReady(now);
      }
    }

    method ProcessLastNeighborMessage(m: Message, now: int)
      modifies this
      ensures State() == FromLast(old(State()), m, now).0
      ensures sent == old(sent).Then(FromLast(old(State()), m, now).1)
    {
      sent.ThenNothing();
      match m
      case TrainCrossed =>
        if trainInLast {
          sent := sent.Then(Raise(UnexpectedMessage));
        }
        trainInLast := true;
        if !trainInNext {
          lamp := lamp.(allowGreen := true);
        }
      case HaveTrain | NoTrain =>
        HearLastOccupancy(now);
      case _ =>
        sent := sent.Then(Raise(InvalidMessage));
    }
  }
}
