/** A closed line of station controllers, their channels and their trains. */
module RtuLine {
  // Messages may be delayed for any time.  Segment k lies between station Prev(k), where trains come in, and station k,
  // where they leave.

  import opened Ring
  import opened Rtu

  /** Where a train really is: wholly inside a segment, or with `pulses` of its WHEEL_COUNT pulses
      given, lying across the sensor of a station. */
  datatype Place = Inside(segment: nat) | Passing(station: nat, pulses: nat)

  /** `forward[k]` carries messages from station Prev(k) to station k, `backward[k]` from k to Prev(k).
      `booked[t]` is the segment that the controllers take train t to be in; it is there for the proofs
      only: no action looks at it. */
  datatype World = World(
    stations: seq<Station>,
    forward: seq<seq<Message>>, backward: seq<seq<Message>>,
    trains: seq<Place>, booked: seq<nat>,
    alarms: seq<Alarm>)

  datatype Action =
    | Depart(train: nat)
    | Pulse(train: nat)
    | Poll(station: nat, now: int)
    | DeliverForward(segment: nat, now: int)
    | DeliverBackward(segment: nat, prox: bool, now: int)
    | Central(station: nat, message: Message, prox: bool, now: int)

  predicate WellFormed(w: World) {
    && |w.stations| == |w.forward| == |w.backward|
    && |w.trains| == |w.booked|
    && (forall t :: 0 <= t < |w.booked| ==> w.booked[t] < |w.stations|)
    && (forall t :: 0 <= t < |w.trains| ==>
          match w.trains[t]
          case Inside(k) => k < |w.stations|
          case Passing(i, p) => i < |w.stations| && p < WHEEL_COUNT)
  }

  // ---------------------------------------------------------------- actions

  /** A train at the end of its segment starts over the sensor; the brake lets it do so only on green. */
  function DoDepart(w: World, t: nat): (r: World)
    requires WellFormed(w)
    ensures WellFormed(r)
  {
    if CanDepart(w, t) then w.(trains := w.trains[t := Passing(w.trains[t].segment, 0)]) else w
  }

  predicate CanDepart(w: World, t: nat)
    requires WellFormed(w)
  {
    t < |w.trains| && w.trains[t].Inside? && w.stations[w.trains[t].segment].lamp.light == GREEN
  }

  /** One more wheel goes by; with the last one the whole train is in the next segment. */
  function DoPulse(w: World, t: nat): (r: World)
    requires WellFormed(w)
    ensures WellFormed(r)
  {
    if t < |w.trains| && w.trains[t].Passing? then
      var Passing(i, p) := w.trains[t];
      var s := w.stations[i];
      w.(stations := w.stations[i := s.(wheels := s.wheels.(counter := s.wheels.counter + 1))],
         trains := w.trains[t := if p + 1 == WHEEL_COUNT then Inside(Next(|w.stations|, i)) else Passing(i, p + 1)])
    else w
  }

  /** The trains booked in segment i are booked in the segment after it. */
  function Rebook(booked: seq<nat>, n: nat, i: nat): (r: seq<nat>)
    requires i < n && forall t :: 0 <= t < |booked| ==> booked[t] < n
    ensures |r| == |booked| && forall t :: 0 <= t < |booked| ==> r[t] == (if booked[t] == i then Next(n, i) else booked[t])
  {
    seq(|booked|, t requires 0 <= t < |booked| => if booked[t] == i then Next(n, i) else booked[t])
  }

  function DoPoll(w: World, i: nat, now: int, level: bool): (r: World)
    requires WellFormed(w)
    ensures WellFormed(r)
  {
    if i < |w.stations| then
      var n := |w.stations|;
      var (s, e) := RunOnce(w.stations[i], now, level);
      World(w.stations[i := s],
            w.forward[Next(n, i) := w.forward[Next(n, i)] + e.toNext],
            w.backward[i := w.backward[i] + e.toLast],
            w.trains,
            if e.toNext == [] then w.booked else Rebook(w.booked, n, i),
            w.alarms + e.alarms)
    else w
  }

  function DoDeliverForward(w: World, k: nat, now: int): (r: World)
    requires WellFormed(w)
    ensures WellFormed(r)
  {
    if k < |w.stations| && w.forward[k] != [] then
      var (s, e) := FromLast(w.stations[k], w.forward[k][0], now);
      w.(stations := w.stations[k := s], forward := w.forward[k := w.forward[k][1..]], alarms := w.alarms + e.alarms)
    else w
  }

  function DoDeliverBackward(w: World, k: nat, prox: bool, now: int): (r: World)
    requires WellFormed(w)
    ensures WellFormed(r)
  {
    if k < |w.stations| && w.backward[k] != [] then
      var i := Prev(|w.stations|, k);
      var (s, e) := FromNext(w.stations[i], w.backward[k][0], prox, now);
      w.(stations := w.stations[i := s], backward := w.backward[k := w.backward[k][1..]], alarms := w.alarms + e.alarms)
    else w
  }

  /** The centre may send anything at any time, except to stop or restart a running station. */
  function DoCentral(w: World, i: nat, m: Message, prox: bool, now: int): (r: World)
    requires WellFormed(w)
    ensures WellFormed(r)
  {
    if i < |w.stations| && m != Stop && m != Start then
      var (s, e) := FromCentral(w.stations[i], m, prox, now);
      w.(stations := w.stations[i := s], alarms := w.alarms + e.alarms)
    else w
  }

  function Apply(w: World, a: Action, level: bool): (r: World)
    requires WellFormed(w)
    ensures WellFormed(r)
  {
    match a
    case Depart(t) => DoDepart(w, t)
    case Pulse(t) => DoPulse(w, t)
    case Poll(i, now) => DoPoll(w, i, now, level)
    case DeliverForward(k, now) => DoDeliverForward(w, k, now)
    case DeliverBackward(k, prox, now) => DoDeliverBackward(w, k, prox, now)
    case Central(i, m, prox, now) => DoCentral(w, i, m, prox, now)
  }

  function Run(w: World, acts: seq<Action>, level: bool): (r: World)
    requires WellFormed(w)
    ensures WellFormed(r)
  {
    if acts == [] then w else Apply(Run(w, acts[..|acts| - 1], level), acts[|acts| - 1], level)
  }

  // ---------------------------------------------------------------- what is to be shown

  /** The segments a train lies in. */
  function Segments(n: nat, p: Place): set<nat>
    requires match p case Inside(k) => k < n case Passing(i, _) => i < n
  {
    match p
    case Inside(k) => {k}
    case Passing(i, _) => {i, Next(n, i)}
  }

  /** No two trains have a segment in common. */
  ghost predicate Safe(w: World)
    requires WellFormed(w)
  {
    forall t, u :: 0 <= t < u < |w.trains| ==>
      Segments(|w.stations|, w.trains[t]) !! Segments(|w.stations|, w.trains[u])
  }

  /** No controller has been surprised. */
  predicate NoSurprise(w: World) {
    CrossingNotExpected !in w.alarms && UnexpectedMessage !in w.alarms && NotValidWhileRunning !in w.alarms
  }

  /** At most one message is under way between two neighbours. */
  predicate ChannelsThin(w: World)
    requires WellFormed(w)
  {
    forall k :: 0 <= k < |w.stations| ==> |w.forward[k]| + |w.backward[k]| <= 1
  }

  /** Every station would allow green exactly when there is a train behind it and none in front of it. */
  predicate GreenRule(w: World) {
    forall i :: 0 <= i < |w.stations| ==>
      w.stations[i].lamp.allowGreen == (w.stations[i].trainInLast && !w.stations[i].trainInNext)
  }

  /** The state after start-up: all stations running, lights red, every train in a segment of its own,
      and both ends of every segment aware of it. */
  ghost predicate Init(w: World) {
    && WellFormed(w)
    && (forall k :: 0 <= k < |w.stations| ==> w.forward[k] == [] && w.backward[k] == [])
    && (forall t :: 0 <= t < |w.trains| ==> w.trains[t] == Inside(w.booked[t]))
    && (forall t, u :: 0 <= t < u < |w.trains| ==> w.booked[t] != w.booked[u])
    && (forall k :: 0 <= k < |w.stations| ==>
          Started(w.stations[k], k in w.booked, Next(|w.stations|, k) in w.booked))
    && NoSurprise(w) && PartialCount !in w.alarms
  }

  // ---------------------------------------------------------------- the invariant

  function Bit(b: bool): nat { if b then 1 else 0 }

  /** The token of segment k: the station before it believes in a train exactly when the station after
      it does, or one message about the train's coming or going is under way. */
  predicate Token(w: World, k: nat)
    requires WellFormed(w) && k < |w.stations|
  {
    && Bit(w.stations[Prev(|w.stations|, k)].trainInNext)
       == Bit(w.stations[k].trainInLast) + |w.forward[k]| + |w.backward[k]|
    && (w.forward[k] != [] ==> w.forward[k][0] == TrainCrossed)
    && (w.backward[k] != [] ==> w.backward[k][0] == TrainCrossed)
    && (k in w.booked <==> w.stations[k].trainInLast || w.forward[k] != [])
  }

  /** How many pulses of train t its station may have counted by now. */
  function PulsesGiven(w: World, t: nat): nat
    requires WellFormed(w) && t < |w.trains|
  {
    match w.trains[t]
    case Inside(k) => if k == w.booked[t] then 0 else WHEEL_COUNT
    case Passing(_, p) => p
  }

  /** Train t is where its booking says, or on its way, with leave, into the next segment. */
  predicate Tracked(w: World, t: nat)
    requires WellFormed(w) && t < |w.trains|
  {
    var b := w.booked[t];
    && (w.trains[t] == Inside(b) ||
        (w.stations[b].lamp.allowGreen &&
         ((w.trains[t].Passing? && w.trains[t].station == b) || w.trains[t] == Inside(Next(|w.stations|, b)))))
    && w.stations[b].wheels.counter <= PulsesGiven(w, t)
  }

  ghost predicate Inv(w: World) {
    && WellFormed(w)
    && (forall i :: 0 <= i < |w.stations| ==> Running(w.stations[i]))
    && (forall i :: 0 <= i < |w.stations| && i !in w.booked ==> w.stations[i].wheels.counter == 0)
    && GreenRule(w)
    && (forall k :: 0 <= k < |w.stations| ==> Token(w, k))
    && (forall t :: 0 <= t < |w.trains| ==> Tracked(w, t))
    && (forall t, u :: 0 <= t < u < |w.trains| ==> w.booked[t] != w.booked[u])
    && NoSurprise(w)
  }

  /** A green light is only ever shown with leave. */
  predicate LightsWithLeave(w: World) {
    forall i :: 0 <= i < |w.stations| ==> w.stations[i].lamp.light == GREEN ==> w.stations[i].lamp.allowGreen
  }

  lemma InitInv(w: World)
    requires Init(w)
    ensures Inv(w) && LightsWithLeave(w)
  {}

  /** A train with leave to cross has a free segment in front of it. */
  lemma NextIsFree(w: World, i: nat)
    requires Inv(w) && i < |w.stations| && w.stations[i].lamp.allowGreen
    ensures Next(|w.stations|, i) !in w.booked && Next(|w.stations|, i) != i
  {
    var n := |w.stations|;
    PrevOfNext(n, i);
    assert Token(w, Next(n, i)) && Token(w, i);
  }

  lemma InvSafe(w: World)
    requires Inv(w)
    ensures Safe(w) && ChannelsThin(w)
  {
    var n := |w.stations|;
    forall t, u | 0 <= t < u < |w.trains|
      ensures Segments(n, w.trains[t]) !! Segments(n, w.trains[u])
    {
      var b, c := w.booked[t], w.booked[u];
      assert Tracked(w, t) && Tracked(w, u);
      PrevOfNext(n, b);
      PrevOfNext(n, c);
      if w.stations[b].lamp.allowGreen { NextIsFree(w, b); }
      if w.stations[c].lamp.allowGreen { NextIsFree(w, c); }
    }
    forall k | 0 <= k < n ensures |w.forward[k]| + |w.backward[k]| <= 1 {
      assert Token(w, k);
    }
  }

  // ---------------------------------------------------------------- every action keeps it

  lemma DepartKeeps(w: World, t: nat)
    requires Inv(w)
    requires CanDepart(w, t) ==> w.stations[w.trains[t].segment].lamp.allowGreen
    ensures Inv(DoDepart(w, t)) && DoDepart(w, t).stations == w.stations
  {
    if CanDepart(w, t) {
      var k := w.trains[t].segment;
      var b := w.booked[t];
      assert Tracked(w, t) && Token(w, k);
      if k != b {
        NextIsFree(w, b);
        assert false;
      }
      var r := DoDepart(w, t);
      forall u | 0 <= u < |r.trains| ensures Tracked(r, u) { assert Tracked(w, u); }
      forall j | 0 <= j < |r.stations| ensures Token(r, j) { assert Token(w, j); }
    }
  }

  lemma PulseKeeps(w: World, t: nat)
    requires Inv(w)
    ensures Inv(DoPulse(w, t))
  {
    if t < |w.trains| && w.trains[t].Passing? {
      var r := DoPulse(w, t);
      var i := w.trains[t].station;
      assert Tracked(w, t);
      assert w.booked[t] == i;
      NextIsFree(w, i);
      forall u | 0 <= u < |r.trains| ensures Tracked(r, u) { assert Tracked(w, u); }
      forall j | 0 <= j < |r.stations| ensures Token(r, j) { assert Token(w, j); }
    }
  }

  /** What one poll does to a running station. */
  lemma PolledStation(s: Station, now: int, level: bool)
    requires Running(s)
    ensures
      var (r, e) := RunOnce(s, now, level);
      && Running(r)
      && UnexpectedMessage !in e.alarms && NotValidWhileRunning !in e.alarms
      && (s.wheels.counter < WHEEL_COUNT ==>
            && r.trainInNext == s.trainInNext && r.trainInLast == s.trainInLast
            && r.lamp.allowGreen == s.lamp.allowGreen
            && (r.lamp.light == GREEN ==> s.lamp.light == GREEN)
            && r.wheels.counter <= s.wheels.counter
            && e.toNext == [] && e.toLast == [] && CrossingNotExpected !in e.alarms)
      && (s.wheels.counter >= WHEEL_COUNT ==>
            && r.trainInNext && !r.trainInLast && !r.lamp.allowGreen && r.lamp.light == level
            && r.wheels.counter == 0 && e.toNext == [TrainCrossed] && e.toLast == [TrainCrossed]
            && (CrossingNotExpected in e.alarms <==> !s.trainInLast || s.trainInNext))
  {}

  /** The stations of r believe what those of w believe, and have counted no more. */
  predicate SameBeliefs(w: World, r: World)
    requires WellFormed(w) && WellFormed(r)
  {
    && r.forward == w.forward && r.backward == w.backward && r.trains == w.trains && r.booked == w.booked
    && forall i :: 0 <= i < |w.stations| ==>
         var s, q := w.stations[i], r.stations[i];
         && Running(q) && q.wheels.counter <= s.wheels.counter
         && q.trainInNext == s.trainInNext && q.trainInLast == s.trainInLast
         && q.lamp.allowGreen == s.lamp.allowGreen
  }

  lemma SameBeliefsKeep(w: World, r: World)
    requires Inv(w) && WellFormed(r) && SameBeliefs(w, r) && NoSurprise(r)
    ensures Inv(r)
  {
    forall t | 0 <= t < |r.trains| ensures Tracked(r, t) { assert Tracked(w, t); }
    forall k | 0 <= k < |r.stations| ensures Token(r, k) { assert Token(w, k); }
  }

  lemma QuietPollKeeps(w: World, i: nat, now: int, level: bool)
    requires Inv(w) && i < |w.stations| && w.stations[i].wheels.counter < WHEEL_COUNT
    ensures Inv(DoPoll(w, i, now, level))
    ensures LightsWithLeave(w) ==> LightsWithLeave(DoPoll(w, i, now, level))
  {
    var x := Next(|w.stations|, i);
    PolledStation(w.stations[i], now, level);
    assert w.forward[x] + [] == w.forward[x] && w.backward[i] + [] == w.backward[i];
    SameBeliefsKeep(w, DoPoll(w, i, now, level));
  }

  /** Exactly segment i is vacated by a rebooking, and exactly the one after it taken. */
  lemma RebookedSegments(booked: seq<nat>, n: nat, i: nat)
    requires i < n && forall t :: 0 <= t < |booked| ==> booked[t] < n
    requires forall t, u :: 0 <= t < u < |booked| ==> booked[t] != booked[u]
    requires i in booked && Next(n, i) !in booked
    ensures
      var r := Rebook(booked, n, i);
      && (forall t, u :: 0 <= t < u < |r| ==> r[t] != r[u])
      && (forall j :: j in r <==> (j == Next(n, i) || (j != i && j in booked)))
  {
    var r := Rebook(booked, n, i);
    var x := Next(n, i);
    forall t | 0 <= t < |booked| ensures booked[t] != x {
      assert booked[t] in booked;
    }
    var t :| 0 <= t < |booked| && booked[t] == i;
    assert r[t] == x;
    forall j | j != i && j in booked ensures j in r {
      var u :| 0 <= u < |booked| && booked[u] == j;
      assert r[u] == j;
    }
  }

  /** The world after station i has reported a whole train. */
  function Reported(w: World, i: nat, s: Station, alarms: seq<Alarm>): (r: World)
    requires WellFormed(w) && i < |w.stations|
    ensures WellFormed(r) && |r.stations| == |w.stations|
  {
    var n := |w.stations|;
    World(w.stations[i := s],
          w.forward[Next(n, i) := w.forward[Next(n, i)] + [TrainCrossed]],
          w.backward[i := w.backward[i] + [TrainCrossed]],
          w.trains, Rebook(w.booked, n, i), alarms)
  }

  /** The poll that finds a whole train counted moves its booking along, just as the train has moved. */
  lemma CrossingPollKeeps(w: World, i: nat, now: int, level: bool)
    requires Inv(w) && i < |w.stations| && w.stations[i].wheels.counter >= WHEEL_COUNT
    ensures Inv(DoPoll(w, i, now, level))
    ensures LightsWithLeave(w) && level == RED ==> LightsWithLeave(DoPoll(w, i, now, level))
  {
    PolledStation(w.stations[i], now, level);
    var t :| 0 <= t < |w.booked| && w.booked[t] == i;
    assert Tracked(w, t);
    NextIsFree(w, i);
    assert Token(w, i);
    var (s, e) := RunOnce(w.stations[i], now, level);
    ReportKeeps(w, i, t, s, w.alarms + e.alarms);
  }

  lemma ReportKeeps(w: World, i: nat, t: nat, s: Station, alarms: seq<Alarm>)
    requires Inv(w) && i < |w.stations| && t < |w.trains| && w.booked[t] == i
    requires w.stations[i].wheels.counter >= WHEEL_COUNT
    requires w.stations[i].lamp.allowGreen && Next(|w.stations|, i) !in w.booked && Next(|w.stations|, i) != i
    requires Running(s) && s.trainInNext && !s.trainInLast && !s.lamp.allowGreen && s.wheels.counter == 0
    requires NoSurprise(w.(alarms := alarms))
    ensures Inv(Reported(w, i, s, alarms))
  {
    var r := Reported(w, i, s, alarms);
    RebookedSegments(w.booked, |w.stations|, i);
    ReportedTokens(w, i, s, alarms);
    forall u | 0 <= u < |r.trains| ensures Tracked(r, u) {
      assert Tracked(w, u);
      assert w.booked[u] in w.booked;
    }
  }

  lemma ReportedTokens(w: World, i: nat, s: Station, alarms: seq<Alarm>)
    requires Inv(w) && i < |w.stations| && i in w.booked
    requires w.stations[i].lamp.allowGreen && Next(|w.stations|, i) !in w.booked && Next(|w.stations|, i) != i
    requires s.trainInNext && !s.trainInLast
    ensures forall k :: 0 <= k < |w.stations| ==> Token(Reported(w, i, s, alarms), k)
  {
    var n := |w.stations|;
    var x := Next(n, i);
    var r := Reported(w, i, s, alarms);
    RebookedSegments(w.booked, n, i);
    PrevOfNext(n, i);
    assert Token(w, i) && Token(w, x);
    forall k | 0 <= k < n ensures Token(r, k) {
      assert Token(w, k);
      if k != x { assert Prev(n, k) != i; }
    }
  }

  lemma DeliverForwardKeeps(w: World, k: nat, now: int)
    requires Inv(w)
    ensures Inv(DoDeliverForward(w, k, now))
    ensures LightsWithLeave(w) ==> LightsWithLeave(DoDeliverForward(w, k, now))
  {
    if k < |w.stations| && w.forward[k] != [] {
      var r := DoDeliverForward(w, k, now);
      assert Token(w, k);
      assert Token(w, Next(|w.stations|, k));
      forall u | 0 <= u < |r.trains| ensures Tracked(r, u) { assert Tracked(w, u); }
      forall j | 0 <= j < |r.stations| ensures Token(r, j) { assert Token(w, j); }
    }
  }

  lemma DeliverBackwardKeeps(w: World, k: nat, prox: bool, now: int)
    requires Inv(w)
    ensures Inv(DoDeliverBackward(w, k, prox, now))
    ensures LightsWithLeave(w) ==> LightsWithLeave(DoDeliverBackward(w, k, prox, now))
  {
    if k < |w.stations| && w.backward[k] != [] {
      var r := DoDeliverBackward(w, k, prox, now);
      var i := Prev(|w.stations|, k);
      assert Token(w, k) && Token(w, i);
      forall u | 0 <= u < |r.trains| ensures Tracked(r, u) { assert Tracked(w, u); }
      forall j | 0 <= j < |r.stations| ensures Token(r, j) { assert Token(w, j); }
    }
  }

  lemma CentralKeeps(w: World, i: nat, m: Message, prox: bool, now: int)
    requires Inv(w)
    ensures Inv(DoCentral(w, i, m, prox, now))
    ensures LightsWithLeave(w) ==> LightsWithLeave(DoCentral(w, i, m, prox, now))
  {
    if i < |w.stations| && m != Stop && m != Start {
      SameBeliefsKeep(w, DoCentral(w, i, m, prox, now));
    }
  }

  /** Does action a let a train start over the sensor of a station that has not given leave? */
  predicate StartsWithoutLeave(w: World, a: Action)
    requires WellFormed(w)
  {
    a.Depart? && CanDepart(w, a.train) && !w.stations[w.trains[a.train].segment].lamp.allowGreen
  }

  lemma ActionKeeps(w: World, a: Action, level: bool)
    requires Inv(w) && !StartsWithoutLeave(w, a)
    ensures Inv(Apply(w, a, level))
    ensures LightsWithLeave(w) && level == RED ==> LightsWithLeave(Apply(w, a, level))
  {
    match a
    case Depart(t) => DepartKeeps(w, t);
    case Pulse(t) => PulseKeeps(w, t);
    case Poll(i, now) =>
      if i < |w.stations| {
        if w.stations[i].wheels.counter < WHEEL_COUNT { QuietPollKeeps(w, i, now, level); }
        else { CrossingPollKeeps(w, i, now, level); }
      }
    case DeliverForward(k, now) => DeliverForwardKeeps(w, k, now);
    case DeliverBackward(k, prox, now) => DeliverBackwardKeeps(w, k, prox, now);
    case Central(i, m, prox, now) => CentralKeeps(w, i, m, prox, now);
  }

  // ---------------------------------------------------------------- the theorems

  /** With a light that turns red after every crossing, no run, however its messages are delayed,
      brings two trains into one segment, fills a channel, breaks the green rule or surprises a controller. */
  lemma {:induction false} SafeOnEveryRun(w: World, acts: seq<Action>)
    requires Init(w)
    ensures
      var r := Run(w, acts, RED);
      Safe(r) && ChannelsThin(r) && GreenRule(r) && NoSurprise(r)
  {
    RunKeeps(w, acts);
    InvSafe(Run(w, acts, RED));
  }

  lemma {:induction false} RunKeeps(w: World, acts: seq<Action>)
    requires Init(w)
    ensures Inv(Run(w, acts, RED)) && LightsWithLeave(Run(w, acts, RED))
  {
    if acts == [] {
      InitInv(w);
    } else {
      RunKeeps(w, acts[..|acts| - 1]);
      ActionKeeps(Run(w, acts[..|acts| - 1], RED), acts[|acts| - 1], RED);
    }
  }

  /** No train of the run starts over a sensor whose station has not given leave. */
  ghost predicate AllWithLeave(w: World, acts: seq<Action>, level: bool)
    requires WellFormed(w)
  {
    forall j :: 0 <= j < |acts| ==> !StartsWithoutLeave(Run(w, acts[..j], level), acts[j])
  }

  /** Whatever the light is set to after a crossing: as long as every train that starts has leave,
      the run is as safe as above. */
  lemma {:induction false} SafeWithLeave(w: World, acts: seq<Action>, level: bool)
    requires Init(w) && AllWithLeave(w, acts, level)
    ensures
      var r := Run(w, acts, level);
      Inv(r) && Safe(r) && ChannelsThin(r) && GreenRule(r) && NoSurprise(r)
  {
    hide Init, Inv, WellFormed, StartsWithoutLeave, Apply, Safe, ChannelsThin, GreenRule, NoSurprise;
    InitWellFormed(w);
    if acts == [] {
      InitInv(w);
    } else {
      var m := |acts| - 1;
      LeaveBefore(w, acts, level);
      SafeWithLeave(w, acts[..m], level);
      assert !StartsWithoutLeave(Run(w, acts[..m], level), acts[m]);
      ActionKeeps(Run(w, acts[..m], level), acts[m], level);
    }
    InvSafe(Run(w, acts, level));
    InvRules(Run(w, acts, level));
  }

  /** The invariant holds all along a run exactly if every train that starts has leave. */
  lemma InvIffLeave(w: World, acts: seq<Action>, level: bool)
    requires Init(w)
    ensures AllWithLeave(w, acts, level) <==> forall j :: 0 <= j <= |acts| ==> Inv(Run(w, acts[..j], level))
  {
    hide Init, Inv, WellFormed, StartsWithoutLeave, Apply, Safe, ChannelsThin, GreenRule, NoSurprise, Run;
    InitWellFormed(w);
    if AllWithLeave(w, acts, level) {
      forall j | 0 <= j <= |acts| ensures Inv(Run(w, acts[..j], level)) {
        assert forall i :: 0 <= i < j ==> acts[..j][..i] == acts[..i];
        SafeWithLeave(w, acts[..j], level);
      }
    } else {
      var j :| 0 <= j < |acts| && StartsWithoutLeave(Run(w, acts[..j], level), acts[j]);
      if Inv(Run(w, acts[..j], level)) {
        LeaveIsNeeded(Run(w, acts[..j], level), acts[j], level);
        RunOneMore(w, acts[..j], acts[j], level);
        assert acts[..j] + [acts[j]] == acts[..j + 1];
      }
    }
  }

  lemma LeaveIsNeeded(w: World, a: Action, level: bool)
    requires Inv(w) && StartsWithoutLeave(w, a)
    ensures !Inv(Apply(w, a, level))
  {
    assert Tracked(w, a.train);
    assert !Tracked(Apply(w, a, level), a.train);
  }

  lemma InitWellFormed(w: World)
    requires Init(w)
    ensures WellFormed(w)
  {}

  lemma InvRules(w: World)
    requires Inv(w)
    ensures GreenRule(w) && NoSurprise(w)
  {}

  lemma LeaveBefore(w: World, acts: seq<Action>, level: bool)
    requires WellFormed(w) && acts != [] && AllWithLeave(w, acts, level)
    ensures AllWithLeave(w, acts[..|acts| - 1], level)
  {
    hide WellFormed, StartsWithoutLeave, Run;
    var m := |acts| - 1;
    forall j | 0 <= j < m
      ensures !StartsWithoutLeave(Run(w, acts[..m][..j], level), acts[..m][j])
    {
      assert acts[..m][..j] == acts[..j];
    }
  }

  // ---------------------------------------------------------------- a start without leave is a surprise

  function Pulses(w: World, t: nat, m: nat): (r: World)
    requires WellFormed(w)
    ensures WellFormed(r)
  {
    if m == 0 then w else DoPulse(Pulses(w, t, m - 1), t)
  }

  predicate Crossing(w: World, t: nat, m: nat)
    requires WellFormed(w)
  {
    t < |w.trains| && w.trains[t].Passing? && w.trains[t].pulses + m <= WHEEL_COUNT
  }

  /** Train t is m wheels further and its station has counted m more. */
  function Pulsed(w: World, t: nat, m: nat): World
    requires WellFormed(w) && Crossing(w, t, m)
  {
    var Passing(i, p) := w.trains[t];
    var s := w.stations[i];
    w.(stations := w.stations[i := s.(wheels := s.wheels.(counter := s.wheels.counter + m))],
       trains := w.trains[t := if p + m == WHEEL_COUNT then Inside(Next(|w.stations|, i)) else Passing(i, p + m)])
  }

  lemma PulsedOnce(w: World, t: nat, m: nat)
    requires WellFormed(w) && 0 < m && Crossing(w, t, m)
    ensures WellFormed(Pulsed(w, t, m - 1)) && DoPulse(Pulsed(w, t, m - 1), t) == Pulsed(w, t, m)
  {
    var i := w.trains[t].station;
    var v := Pulsed(w, t, m - 1);
    assert v.trains[t] == Passing(i, w.trains[t].pulses + m - 1);
    assert DoPulse(v, t).stations == Pulsed(w, t, m).stations;
    assert DoPulse(v, t).trains == Pulsed(w, t, m).trains;
  }

  /** That is what m pulses come to; nothing else changes. */
  lemma {:induction false} PulsesCount(w: World, t: nat, m: nat)
    requires WellFormed(w) && Crossing(w, t, m)
    ensures Pulses(w, t, m) == Pulsed(w, t, m)
  {
    hide DoPulse;
    if m == 0 {
      var i := w.trains[t].station;
      assert w.stations[i := w.stations[i]] == w.stations && w.trains[t := w.trains[t]] == w.trains;
    } else {
      hide Pulsed;
      PulsesCount(w, t, m - 1);
      PulsedOnce(w, t, m);
    }
  }

  /** Let a train start on a green light, pass with all its wheels, and let the station poll: the station
      is surprised exactly if it had not given leave. So "has leave" is what a caller must check. */
  lemma LeaveDecides(w: World, t: nat, now: int, level: bool)
    requires Inv(w) && CanDepart(w, t)
    ensures
      var k := w.trains[t].segment;
      NoSurprise(DoPoll(Pulses(DoDepart(w, t), t, WHEEL_COUNT), k, now, level)) <==> w.stations[k].lamp.allowGreen
  {
    var k := w.trains[t].segment;
    var d := DoDepart(w, t);
    PulsesCount(d, t, WHEEL_COUNT);
    var p := Pulses(d, t, WHEEL_COUNT);
    PolledStation(p.stations[k], now, level);
  }

  // ---------------------------------------------------------------- the light level that is really written

  lemma RunOneMore(w: World, acts: seq<Action>, a: Action, level: bool)
    requires WellFormed(w)
    ensures Run(w, acts + [a], level) == Apply(Run(w, acts, level), a, level)
  {
    assert (acts + [a])[..|acts + [a]| - 1] == acts;
  }

  lemma {:induction false} RunPulses(w: World, acts: seq<Action>, t: nat, m: nat, level: bool) returns (more: seq<Action>)
    requires WellFormed(w)
    ensures Run(w, more, level) == Pulses(Run(w, acts, level), t, m)
  {
    if m == 0 {
      more := acts;
    } else {
      var before := RunPulses(w, acts, t, m - 1, level);
      RunOneMore(w, before, Pulse(t), level);
      more := before + [Pulse(t)];
    }
  }

  /** A state in which nothing is going on, whatever lights are left shining: no message under way, every
      train within a segment of its own, and both ends of every segment aware of it. */
  ghost predicate Quiet(w: World) {
    && WellFormed(w)
    && (forall k :: 0 <= k < |w.stations| ==> w.forward[k] == [] && w.backward[k] == [])
    && (forall t :: 0 <= t < |w.trains| ==> w.trains[t] == Inside(w.booked[t]))
    && (forall t, u :: 0 <= t < u < |w.trains| ==> w.booked[t] != w.booked[u])
    && (forall k :: 0 <= k < |w.stations| ==> Aware(w.stations[k], k in w.booked, Next(|w.stations|, k) in w.booked))
  }

  predicate Aware(s: Station, behind: bool, inFront: bool) {
    && Running(s) && s.wheels.counter == 0 && s.trainInLast == behind && s.trainInNext == inFront
    && s.lamp.allowGreen == (behind && !inFront)
  }

  lemma InitQuiet(w: World)
    requires Init(w)
    ensures Quiet(w)
  {}

  /** The world with train u, the light of station j and the count of station j as given. */
  function Moved(x: World, u: nat, j: nat, p: Place, lamp: Lamp, counter: nat): World
    requires u < |x.trains| && j < |x.stations|
  {
    var s := x.stations[j];
    x.(trains := x.trains[u := p], stations := x.stations[j := s.(lamp := lamp, wheels := s.wheels.(counter := counter))])
  }

  predicate MayStart(x: World, u: nat, j: nat) {
    u < |x.trains| && j < |x.stations| && x.trains[u] == Inside(j) && x.stations[j].lamp.allowGreen
  }

  /** A train that has leave is given green and starts. */
  lemma StartOnGreen(w: World, acts: seq<Action>, u: nat, j: nat, level: bool) returns (more: seq<Action>, lamp: Lamp)
    requires WellFormed(w) && MayStart(Run(w, acts, level), u, j)
    ensures lamp.allowGreen
    ensures
      var x := Run(w, acts, level);
      Run(w, more, level) == Moved(x, u, j, Passing(j, 0), lamp, x.stations[j].wheels.counter)
  {
    RunOneMore(w, acts, Central(j, LightGreen, false, 0), level);
    more := acts + [Central(j, LightGreen, false, 0)];
    lamp := Run(w, more, level).stations[j].lamp;
    RunOneMore(w, more, Depart(u), level);
    more := more + [Depart(u)];
  }

  lemma PulsesMove(x: World, u: nat, j: nat, lamp: Lamp)
    requires WellFormed(x) && u < |x.trains| && j < |x.stations|
    ensures
      var c := x.stations[j].wheels.counter;
      && WellFormed(Moved(x, u, j, Passing(j, 0), lamp, c))
      && Pulses(Moved(x, u, j, Passing(j, 0), lamp, c), u, WHEEL_COUNT)
         == Moved(x, u, j, Inside(Next(|x.stations|, j)), lamp, c + WHEEL_COUNT)
  {
    var d := Moved(x, u, j, Passing(j, 0), lamp, x.stations[j].wheels.counter);
    PulsesCount(d, u, WHEEL_COUNT);
  }

  /** It goes over into the next segment, not yet reported. */
  lemma CrossUnreported(w: World, acts: seq<Action>, u: nat, j: nat, level: bool) returns (more: seq<Action>, lamp: Lamp)
    requires WellFormed(w) && MayStart(Run(w, acts, level), u, j)
    ensures lamp.allowGreen
    ensures
      var x := Run(w, acts, level);
      Run(w, more, level) == Moved(x, u, j, Inside(Next(|x.stations|, j)), lamp, x.stations[j].wheels.counter + WHEEL_COUNT)
  {
    hide Run, Moved, Pulses, WellFormed;
    more, lamp := StartOnGreen(w, acts, u, j, level);
    PulsesMove(Run(w, acts, level), u, j, lamp);
    more := RunPulses(w, more, u, WHEEL_COUNT, level);
  }

  /** With the level written then, the light of a station stays green when it has reported a crossing. */
  lemma ReportOnGreen(w: World, acts: seq<Action>, k: nat) returns (more: seq<Action>, s: Station, alarms: seq<Alarm>)
    requires WellFormed(w)
    requires
      var x := Run(w, acts, GREEN);
      k < |x.stations| && Running(x.stations[k]) && x.stations[k].wheels.counter >= WHEEL_COUNT
    ensures Run(w, more, GREEN) == Reported(Run(w, acts, GREEN), k, s, alarms)
    ensures Aware(s, false, true) && s.lamp.light == GREEN
  {
    var x := Run(w, acts, GREEN);
    PolledStation(x.stations[k], 0, GREEN);
    RunOneMore(w, acts, Poll(k, 0), GREEN);
    more := acts + [Poll(k, 0)];
    s := Run(w, more, GREEN).stations[k];
    alarms := Run(w, more, GREEN).alarms;
  }

  /** The world after both neighbours of station k have heard of a crossing. */
  function Told(y: World, k: nat): (r: World)
    requires WellFormed(y) && k < |y.stations|
    ensures WellFormed(r)
  {
    DoDeliverBackward(DoDeliverForward(y, Next(|y.stations|, k), 0), k, false, 0)
  }

  /** What the stations know once the one in front has been told: it has a train behind it. */
  lemma ToldNext(x: World, t: nat, lamp: Lamp, s: Station, alarms: seq<Alarm>)
    requires Quiet(x) && t < |x.trains| && Next(|x.stations|, x.booked[t]) !in x.booked && Aware(s, false, true)
    ensures
      var n, k := |x.stations|, x.booked[t];
      var y := Moved(x, t, k, Inside(Next(n, k)), lamp, WHEEL_COUNT);
      && WellFormed(y)
      && var v := DoDeliverForward(Reported(y, k, s, alarms), Next(n, k), 0);
      && |v.stations| == n && v.trains == y.trains && v.booked == Rebook(x.booked, n, k)
      && (forall j :: 0 <= j < n ==> v.forward[j] == [] && v.backward[j] == (if j == k then [TrainCrossed] else []))
      && (forall j :: 0 <= j < n ==>
            Aware(v.stations[j], j != k && (j == Next(n, k) || j in x.booked), j == k || Next(n, j) in x.booked))
  {
    hide Rebook;
    var n, k := |x.stations|, x.booked[t];
    var a := Next(n, k);
    assert k in x.booked && k != a;
    var z := Reported(Moved(x, t, k, Inside(a), lamp, WHEEL_COUNT), k, s, alarms);
    assert z.forward[a] == [TrainCrossed];
    assert Aware(x.stations[a], false, Next(n, a) in x.booked);
    forall j | 0 <= j < n
      ensures Aware(DoDeliverForward(z, a, 0).stations[j], j != k && (j == a || j in x.booked), j == k || Next(n, j) in x.booked)
    {
      assert Aware(x.stations[j], j in x.booked, Next(n, j) in x.booked);
    }
  }

  /** And once the one behind has been told too: it has none in front of it. */
  lemma ToldStations(x: World, t: nat, lamp: Lamp, s: Station, alarms: seq<Alarm>)
    requires Quiet(x) && t < |x.trains| && Next(|x.stations|, x.booked[t]) !in x.booked && Aware(s, false, true)
    ensures
      var n, k := |x.stations|, x.booked[t];
      var y := Moved(x, t, k, Inside(Next(n, k)), lamp, WHEEL_COUNT);
      && WellFormed(y)
      && var r := Told(Reported(y, k, s, alarms), k);
      && |r.stations| == n && r.trains == y.trains && r.booked == Rebook(x.booked, n, k)
      && (forall j :: 0 <= j < n ==> r.forward[j] == [] && r.backward[j] == [])
      && (forall j :: 0 <= j < n ==>
            Aware(r.stations[j], j != k && (j == Next(n, k) || j in x.booked),
                  j == k || (j != Prev(n, k) && Next(n, j) in x.booked)))
  {
    hide Rebook, DoDeliverForward, Reported;
    ToldNext(x, t, lamp, s, alarms);
    var n, k := |x.stations|, x.booked[t];
    var a, p := Next(n, k), Prev(n, k);
    PrevOfNext(n, k);
    assert k in x.booked && k != a && p != k;
    var v := DoDeliverForward(Reported(Moved(x, t, k, Inside(a), lamp, WHEEL_COUNT), k, s, alarms), a, 0);
    assert Aware(v.stations[p], p == a || p in x.booked, true);
  }

  /** Once a train that went on has been reported and both neighbours have been told, all is quiet again. */
  lemma QuietAgain(x: World, t: nat, lamp: Lamp, s: Station, alarms: seq<Alarm>)
    requires Quiet(x) && t < |x.trains| && Next(|x.stations|, x.booked[t]) !in x.booked && Aware(s, false, true)
    ensures
      var n, k := |x.stations|, x.booked[t];
      var y := Moved(x, t, k, Inside(Next(n, k)), lamp, WHEEL_COUNT);
      && WellFormed(y)
      && var r := Told(Reported(y, k, s, alarms), k);
      && Quiet(r) && |r.stations| == n && r.booked == x.booked[t := Next(n, k)]
  {
    hide Reported, Told, Aware;
    var n, k := |x.stations|, x.booked[t];
    ToldStations(x, t, lamp, s, alarms);
    var r := Told(Reported(Moved(x, t, k, Inside(Next(n, k)), lamp, WHEEL_COUNT), k, s, alarms), k);
    assert k in x.booked;
    RebookedSegments(x.booked, n, k);
    assert r.booked == x.booked[t := Next(n, k)];
    forall j | 0 <= j < n ensures Aware(r.stations[j], j in r.booked, Next(n, j) in r.booked) {
      PrevOfNext(n, j);
      assert Next(n, j) == k <==> j == Prev(n, k);
    }
  }

  /** Train t goes on into the free segment in front of it, and everybody concerned is told. */
  lemma GoOn(w: World, acts: seq<Action>, t: nat) returns (more: seq<Action>)
    requires WellFormed(w) && Quiet(Run(w, acts, GREEN))
    requires
      var x := Run(w, acts, GREEN);
      t < |x.trains| && Next(|x.stations|, x.booked[t]) !in x.booked
    ensures
      var x, r := Run(w, acts, GREEN), Run(w, more, GREEN);
      Quiet(r) && |r.stations| == |x.stations| && r.booked == x.booked[t := Next(|x.stations|, x.booked[t])]
  {
    hide Run, Reported, DoDeliverForward, DoDeliverBackward, Told;
    var x := Run(w, acts, GREEN);
    var n, k := |x.stations|, x.booked[t];
    QuietMayStart(x, t);
    var lamp, s, alarms;
    more, lamp := CrossUnreported(w, acts, t, k, GREEN);
    more, s, alarms := ReportOnGreen(w, more, k);
    QuietAgain(x, t, lamp, s, alarms);
    more := TellBoth(w, more, k);
  }

  lemma QuietSizes(x: World)
    requires Quiet(x)
    ensures |x.booked| == |x.trains|
  {}

  lemma QuietMayStart(x: World, t: nat)
    requires Quiet(x) && t < |x.trains| && Next(|x.stations|, x.booked[t]) !in x.booked
    ensures MayStart(x, t, x.booked[t]) && Running(x.stations[x.booked[t]]) && x.stations[x.booked[t]].wheels.counter == 0
  {
    var k := x.booked[t];
    assert Aware(x.stations[k], k in x.booked, Next(|x.stations|, k) in x.booked) && k in x.booked;
  }

  lemma TellBoth(w: World, acts: seq<Action>, k: nat) returns (more: seq<Action>)
    requires WellFormed(w) && k < |Run(w, acts, GREEN).stations|
    ensures Run(w, more, GREEN) == Told(Run(w, acts, GREEN), k)
  {
    hide DoDeliverForward, DoDeliverBackward;
    var a := Next(|Run(w, acts, GREEN).stations|, k);
    RunOneMore(w, acts, DeliverForward(a, 0), GREEN);
    more := acts + [DeliverForward(a, 0)];
    RunOneMore(w, more, DeliverBackward(k, false, 0), GREEN);
    more := more + [DeliverBackward(k, false, 0)];
  }

  /** The first train crosses from segment k, its light stays green, the second, right behind it,
      follows into k and goes straight on into the first. */
  lemma Collide(w: World, acts: seq<Action>, t: nat, u: nat) returns (more: seq<Action>)
    requires WellFormed(w) && Quiet(Run(w, acts, GREEN))
    requires
      var x := Run(w, acts, GREEN);
      && t < |x.trains| && u < |x.trains| && Next(|x.stations|, x.booked[u]) == x.booked[t]
      && t != u && Next(|x.stations|, x.booked[t]) !in x.booked
    ensures !Safe(Run(w, more, GREEN))
  {
    hide Run, Reported, Aware, Safe, WellFormed, Quiet;
    var x := Run(w, acts, GREEN);
    QuietSizes(x);
    var n, k, j := |x.stations|, x.booked[t], x.booked[u];
    QuietMayStart(x, t);
    var lamp, s, alarms;
    more, lamp := CrossUnreported(w, acts, t, k, GREEN);
    more, s, alarms := ReportOnGreen(w, more, k);
    var z := Run(w, more, GREEN);
    FollowerHasLeave(x, t, u, lamp, s, alarms);
    RunOneMore(w, more, DeliverBackward(k, false, 0), GREEN);
    more := more + [DeliverBackward(k, false, 0)];
    more, lamp := CrossUnreported(w, more, u, j, GREEN);
    RunOneMore(w, more, Depart(u), GREEN);
    more := more + [Depart(u)];
    TwoInOneSegment(Run(w, more, GREEN), t, u, k);
  }

  /** The second train has leave and the light of the station in front of it is green. */
  lemma FollowerHasLeave(x: World, t: nat, u: nat, lamp: Lamp, s: Station, alarms: seq<Alarm>)
    requires Quiet(x) && t < |x.trains| && u < |x.trains| && Next(|x.stations|, x.booked[u]) == x.booked[t]
    requires t != u && Next(|x.stations|, x.booked[t]) !in x.booked && s.lamp.light == GREEN
    ensures
      var n, k, j := |x.stations|, x.booked[t], x.booked[u];
      var y := Moved(x, t, k, Inside(Next(n, k)), lamp, WHEEL_COUNT);
      && WellFormed(y)
      && var v := DoDeliverBackward(Reported(y, k, s, alarms), k, false, 0);
      && |v.stations| == n && |v.trains| == |x.trains| && j != k
      && v.trains[t] == Inside(Next(n, k)) && MayStart(v, u, j) && v.stations[k].lamp.light == GREEN
  {
    var n, k, j := |x.stations|, x.booked[t], x.booked[u];
    PrevOfNext(n, j);
    assert j in x.booked && k in x.booked && j != k;
    assert Aware(x.stations[j], j in x.booked, k in x.booked);
    assert Reported(Moved(x, t, k, Inside(Next(n, k)), lamp, WHEEL_COUNT), k, s, alarms).backward[k] == [TrainCrossed];
  }

  lemma TwoInOneSegment(r: World, t: nat, u: nat, k: nat)
    requires WellFormed(r) && t < |r.trains| && u < |r.trains| && t != u && k < |r.stations|
    requires r.trains[t] == Inside(Next(|r.stations|, k)) && r.trains[u] == Passing(k, 0)
    ensures !Safe(r)
  {
    assert Next(|r.stations|, k) in Segments(|r.stations|, r.trains[t]);
    assert Next(|r.stations|, k) in Segments(|r.stations|, r.trains[u]);
  }

  /** With the level the program writes after a crossing, safety is lost from every quiet state in which a
      train has a free segment in front of it and there is another train on the line, d segments behind:
      that one is let up close, segment by segment, all its messages delivered. */
  lemma {:induction false} UnsafeAsWritten(w: World, acts: seq<Action>, t: nat, u: nat, d: nat) returns (more: seq<Action>)
    requires WellFormed(w) && Quiet(Run(w, acts, LEVEL_AFTER_CROSSING))
    requires
      var x := Run(w, acts, LEVEL_AFTER_CROSSING);
      && t < |x.trains| && u < |x.trains| && 0 < d < |x.stations|
      && x.booked[u] == Back(|x.stations|, x.booked[t], d) && Next(|x.stations|, x.booked[t]) !in x.booked
    ensures !Safe(Run(w, more, LEVEL_AFTER_CROSSING))
    decreases d
  {
    hide Run, Quiet, Safe;
    var x := Run(w, acts, GREEN);
    var n, k := |x.stations|, x.booked[t];
    var f := Back(n, k, d - 1);
    if d == 1 {
      more := Collide(w, acts, t, u);
    } else if f in x.booked {
      var v :| 0 <= v < |x.booked| && x.booked[v] == f;
      more := UnsafeAsWritten(w, acts, t, v, d - 1);
    } else {
      more := GoOn(w, acts, u);
      more := UnsafeAsWritten(w, more, t, u, d - 1);
    }
  }

  /** With that level, a line is safe on every run exactly if it has at most one train, or no free segment. */
  lemma SafeAsWrittenIff(w: World)
    requires Init(w)
    ensures (forall acts :: Safe(Run(w, acts, LEVEL_AFTER_CROSSING))) <==> !(2 <= |w.trains| < |w.stations|)
  {
    InitQuiet(w);
    if 2 <= |w.trains| < |w.stations| {
      var acts := UnsafeRun(w);
    } else {
      forall acts ensures Safe(Run(w, acts, LEVEL_AFTER_CROSSING)) {
        if |w.trains| < 2 { SameTrains(w, acts); } else { FullStands(w, acts); InvSafe(Run(w, acts, GREEN)); }
      }
    }
  }

  lemma UnsafeRun(w: World) returns (acts: seq<Action>)
    requires Quiet(w) && 2 <= |w.trains| < |w.stations|
    ensures !Safe(Run(w, acts, LEVEL_AFTER_CROSSING))
  {
    var n := |w.stations|;
    var b := seq(n, k => k in w.booked);
    var free := SomeoneMissing(n, w.booked);
    assert !b[free] && b[w.booked[0]];
    var k := SomewhereToGo(b);
    var t :| 0 <= t < |w.booked| && w.booked[t] == k;
    var u := if t == 0 then 1 else 0;
    var d := DistanceBack(n, k, w.booked[u]);
    acts := UnsafeAsWritten(w, [], t, u, d);
  }

  lemma {:induction false} SameTrains(w: World, acts: seq<Action>)
    requires WellFormed(w)
    ensures |Run(w, acts, GREEN).trains| == |w.trains|
  {
    if acts != [] {
      SameTrains(w, acts[..|acts| - 1]);
    }
  }

  /** A line without a free segment: nobody has leave, and no light is green. */
  ghost predicate Full(w: World) {
    && Inv(w) && LightsWithLeave(w)
    && (forall k :: 0 <= k < |w.stations| ==> k in w.booked && w.forward[k] == [] && w.backward[k] == [])
    && (forall t :: 0 <= t < |w.trains| ==> w.trains[t] == Inside(w.booked[t]))
  }

  /** On such a line everything stands, whatever is written after a crossing. */
  lemma {:induction false} FullStands(w: World, acts: seq<Action>)
    requires Init(w) && |w.trains| >= |w.stations|
    ensures Full(Run(w, acts, GREEN)) && Run(w, acts, GREEN).trains == w.trains
  {
    if acts == [] {
      InitInv(w);
      forall k | 0 <= k < |w.stations| ensures k in w.booked { NobodyMissing(|w.stations|, w.booked, k); }
    } else {
      FullStands(w, acts[..|acts| - 1]);
      FullKeeps(Run(w, acts[..|acts| - 1], GREEN), acts[|acts| - 1], GREEN);
    }
  }

  lemma NobodyHasLeave(w: World, i: nat)
    requires Full(w) && i < |w.stations|
    ensures !w.stations[i].lamp.allowGreen && w.stations[i].lamp.light == RED && w.stations[i].wheels.counter == 0
  {
    var x := Next(|w.stations|, i);
    PrevOfNext(|w.stations|, i);
    assert Token(w, x) && x in w.booked && i in w.booked;
    var t :| 0 <= t < |w.booked| && w.booked[t] == i;
    assert Tracked(w, t);
  }

  lemma FullKeeps(w: World, a: Action, level: bool)
    requires Full(w)
    ensures Full(Apply(w, a, level)) && Apply(w, a, level).trains == w.trains
  {
    hide DoPoll;
    match a
    case Depart(t) =>
      if CanDepart(w, t) {
        NobodyHasLeave(w, w.trains[t].segment);
        assert false;
      }
    case Pulse(t) =>
    case Poll(i, now) => FullPollKeeps(w, i, now, level);
    case DeliverForward(k, now) =>
    case DeliverBackward(k, prox, now) =>
    case Central(i, m, prox, now) => CentralKeeps(w, i, m, prox, now);
  }

  lemma FullPollKeeps(w: World, i: nat, now: int, level: bool)
    requires Full(w)
    ensures Full(DoPoll(w, i, now, level)) && DoPoll(w, i, now, level).trains == w.trains
  {
    if i < |w.stations| {
      NobodyHasLeave(w, i);
      QuietPollKeeps(w, i, now, level);
      PolledStation(w.stations[i], now, level);
      hide Inv, LightsWithLeave, RunOnce;
      assert w.forward[Next(|w.stations|, i)] + [] == [] && w.backward[i] + [] == [];
    }
  }

  /** Both kinds of line exist: three segments with trains in 0 and 2, or two with a train in each. */
  lemma SuchALineExists() returns (w: World)
    ensures Init(w) && 2 == |w.trains| < |w.stations|
  {
    w := World([At(true, false), At(false, true), At(true, true)], [[], [], []], [[], [], []],
               [Inside(0), Inside(2)], [0, 2], []);
    assert w.booked[0] == 0 && w.booked[1] == 2;
  }

  lemma AFullLineExists() returns (w: World)
    ensures Init(w) && 2 == |w.trains| == |w.stations|
  {
    w := World([At(true, true), At(true, true)], [[], []], [[], []], [Inside(0), Inside(1)], [0, 1], []);
    assert w.booked[0] == 0 && w.booked[1] == 1;
  }

  function At(behind: bool, inFront: bool): Station {
    Station(Startup(false, false, false, false, false, 0), Lamp(behind && !inFront, false, false, 0, RED),
            Wheels(0, false, 0), inFront, behind)
  }
}
