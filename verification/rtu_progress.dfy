/** Whether the line can go on. */
module RtuProgress {
  // A station that sees only part of a train's pulses discards them after thirty seconds.  The train's crossing is then
  // never reported: the line stays safe, but sooner or later it stands still.

  import opened Ring
  import opened Rtu
  import opened RtuLine

  // ---------------------------------------------------------------- lost pulses

  /** Pulses of train t have been discarded: its station has counted fewer than were given. */
  predicate Miscounted(w: World, t: nat)
    requires WellFormed(w) && t < |w.trains|
  {
    w.stations[w.booked[t]].wheels.counter < PulsesGiven(w, t)
  }

  ghost predicate SomeMiscounted(w: World)
    requires WellFormed(w)
  {
    exists t :: 0 <= t < |w.trains| && Miscounted(w, t)
  }

  /** The alarm has been raised exactly if some train is miscounted. */
  ghost predicate AlarmTells(w: World)
    requires WellFormed(w)
  {
    SomeMiscounted(w) <==> PartialCount in w.alarms
  }

  /** What one poll does to a count, and when it tells that it has discarded one. */
  lemma PolledCount(s: Station, now: int, level: bool)
    requires Running(s)
    ensures
      var (r, e) := RunOnce(s, now, level);
      && (r.wheels.counter == s.wheels.counter || r.wheels.counter == 0)
      && (PartialCount in e.alarms <==> 0 < s.wheels.counter < WHEEL_COUNT && r.wheels.counter == 0)
  {}

  /** The booking of a train is moved along, and no other. */
  lemma RebookIs(booked: seq<nat>, n: nat, t: nat)
    requires t < |booked| && forall u :: 0 <= u < |booked| ==> booked[u] < n
    requires forall u, v :: 0 <= u < v < |booked| ==> booked[u] != booked[v]
    ensures Rebook(booked, n, booked[t]) == booked[t := Next(n, booked[t])]
  {}

  /** Miscounted trains stay so, at the same booking, and the alarm goes on telling. */
  ghost predicate CountsOn(w: World, r: World)
    requires WellFormed(w) && WellFormed(r)
  {
    && |r.trains| == |w.trains| && |r.stations| == |w.stations|
    && (forall t :: 0 <= t < |w.trains| && Miscounted(w, t) ==> r.booked[t] == w.booked[t] && Miscounted(r, t))
    && (AlarmTells(w) ==> AlarmTells(r))
  }

  /** Nothing has been discarded. */
  lemma NothingLost(w: World, r: World)
    requires WellFormed(w) && WellFormed(r) && |r.trains| == |w.trains| && |r.stations| == |w.stations|
    requires forall t :: 0 <= t < |w.trains| ==> Miscounted(r, t) == Miscounted(w, t)
    requires forall t :: 0 <= t < |w.trains| && Miscounted(w, t) ==> r.booked[t] == w.booked[t]
    requires PartialCount in r.alarms <==> PartialCount in w.alarms
    ensures CountsOn(w, r)
  {
    hide Miscounted;
    if SomeMiscounted(w) {
      var t :| 0 <= t < |w.trains| && Miscounted(w, t);
      assert Miscounted(r, t);
    }
    if SomeMiscounted(r) {
      var t :| 0 <= t < |r.trains| && Miscounted(r, t);
      assert Miscounted(w, t);
    }
  }

  lemma SameCounts(w: World, r: World)
    requires WellFormed(w) && WellFormed(r) && |r.stations| == |w.stations|
    requires r.trains == w.trains && r.booked == w.booked
    requires forall i :: 0 <= i < |w.stations| ==> r.stations[i].wheels.counter == w.stations[i].wheels.counter
    requires PartialCount in r.alarms <==> PartialCount in w.alarms
    ensures CountsOn(w, r)
  {
    forall t | 0 <= t < |w.trains| ensures Miscounted(r, t) == Miscounted(w, t) {}
    NothingLost(w, r);
  }

  lemma DepartCounts(w: World, t: nat)
    requires Inv(w) && !StartsWithoutLeave(w, Depart(t))
    ensures CountsOn(w, DoDepart(w, t))
  {
    hide CountsOn;
    if CanDepart(w, t) {
      DepartKeeps(w, t);
      assert Tracked(DoDepart(w, t), t) && Tracked(w, t);
      assert w.booked[t] == w.trains[t].segment by { NextIsFree(w, w.trains[t].segment); }
    }
    forall u | 0 <= u < |w.trains| ensures Miscounted(DoDepart(w, t), u) == Miscounted(w, u) {}
    NothingLost(w, DoDepart(w, t));
  }

  lemma PulseCounts(w: World, t: nat)
    requires Inv(w)
    ensures CountsOn(w, DoPulse(w, t))
  {
    hide CountsOn;
    if t < |w.trains| && w.trains[t].Passing? {
      assert Tracked(w, t);
      NextIsFree(w, w.booked[t]);
    }
    forall u | 0 <= u < |w.trains| ensures Miscounted(DoPulse(w, t), u) == Miscounted(w, u) {}
    NothingLost(w, DoPulse(w, t));
  }

  lemma PollCounts(w: World, i: nat, now: int, level: bool)
    requires Inv(w)
    ensures CountsOn(w, DoPoll(w, i, now, level))
  {
    if i < |w.stations| {
      PolledStation(w.stations[i], now, level);
      PolledCount(w.stations[i], now, level);
      if w.stations[i].wheels.counter < WHEEL_COUNT {
        QuietPollCounts(w, i, now, level);
      } else {
        CrossingPollCounts(w, i, now, level);
      }
    }
  }

  lemma QuietPollCounts(w: World, i: nat, now: int, level: bool)
    requires Inv(w) && i < |w.stations| && w.stations[i].wheels.counter < WHEEL_COUNT
    ensures CountsOn(w, DoPoll(w, i, now, level))
  {
    PolledStation(w.stations[i], now, level);
    PolledCount(w.stations[i], now, level);
    hide RunOnce;
    var r := DoPoll(w, i, now, level);
    assert r.trains == w.trains && r.booked == w.booked;
    if PartialCount in RunOnce(w.stations[i], now, level).1.alarms {
      var t :| 0 <= t < |w.booked| && w.booked[t] == i;
      assert Tracked(w, t);
      assert Miscounted(r, t);
      assert SomeMiscounted(r);
    } else {
      SameCounts(w, r);
    }
  }

  lemma CrossingPollCounts(w: World, i: nat, now: int, level: bool)
    requires Inv(w) && i < |w.stations| && w.stations[i].wheels.counter >= WHEEL_COUNT
    ensures CountsOn(w, DoPoll(w, i, now, level))
  {
    PolledStation(w.stations[i], now, level);
    PolledCount(w.stations[i], now, level);
    hide RunOnce, CountsOn;
    var t :| 0 <= t < |w.booked| && w.booked[t] == i;
    assert Tracked(w, t);
    NextIsFree(w, i);
    RebookIs(w.booked, |w.stations|, t);
    var r := DoPoll(w, i, now, level);
    forall u | 0 <= u < |w.trains| && u != t ensures Miscounted(r, u) == Miscounted(w, u) {
      assert w.booked[u] in w.booked;
    }
    assert !Miscounted(r, t) && !Miscounted(w, t);
    NothingLost(w, r);
  }

  lemma CentralCounts(w: World, i: nat, m: Message, prox: bool, now: int)
    requires Inv(w)
    ensures CountsOn(w, DoCentral(w, i, m, prox, now))
  {
    if i < |w.stations| && m != Stop && m != Start {
      SameCounts(w, DoCentral(w, i, m, prox, now));
    }
  }

  lemma ForwardCounts(w: World, k: nat, now: int)
    requires Inv(w)
    ensures CountsOn(w, DoDeliverForward(w, k, now))
  {
    if k < |w.stations| && w.forward[k] != [] {
      assert Token(w, k);
      SameCounts(w, DoDeliverForward(w, k, now));
    }
  }

  lemma BackwardCounts(w: World, k: nat, prox: bool, now: int)
    requires Inv(w)
    ensures CountsOn(w, DoDeliverBackward(w, k, prox, now))
  {
    if k < |w.stations| && w.backward[k] != [] {
      assert Token(w, k);
      SameCounts(w, DoDeliverBackward(w, k, prox, now));
    }
  }

  lemma ActionCounts(w: World, a: Action, level: bool)
    requires Inv(w) && !StartsWithoutLeave(w, a)
    ensures CountsOn(w, Apply(w, a, level))
  {
    hide Inv, CountsOn;
    match a
    case Depart(t) => DepartCounts(w, t);
    case Pulse(t) => PulseCounts(w, t);
    case Poll(i, now) => PollCounts(w, i, now, level);
    case DeliverForward(k, now) => ForwardCounts(w, k, now);
    case DeliverBackward(k, prox, now) => BackwardCounts(w, k, prox, now);
    case Central(i, m, prox, now) => CentralCounts(w, i, m, prox, now);
  }

  // ---------------------------------------------------------------- the alarm

  /** With lights that are green only with leave, nobody starts without. */
  lemma LightsGiveLeave(w: World, a: Action)
    requires Inv(w) && LightsWithLeave(w)
    ensures !StartsWithoutLeave(w, a)
  {}

  lemma {:induction false} KeepsOn(w: World, acts: seq<Action>)
    requires Inv(w) && LightsWithLeave(w)
    ensures Inv(Run(w, acts, RED)) && LightsWithLeave(Run(w, acts, RED))
  {
    hide Apply;
    if acts != [] {
      var m := |acts| - 1;
      KeepsOn(w, acts[..m]);
      LightsGiveLeave(Run(w, acts[..m], RED), acts[m]);
      ActionKeeps(Run(w, acts[..m], RED), acts[m], RED);
    }
  }

  /** On every run from the start some train is miscounted exactly if a station has told of a partial count. */
  lemma {:induction false} MiscountedIffTold(w: World, acts: seq<Action>)
    requires Init(w)
    ensures AlarmTells(Run(w, acts, RED))
  {
    hide Apply, AlarmTells;
    if acts == [] {
      NothingMiscounted(w);
    } else {
      var m := |acts| - 1;
      MiscountedIffTold(w, acts[..m]);
      RunKeeps(w, acts[..m]);
      LightsGiveLeave(Run(w, acts[..m], RED), acts[m]);
      ActionCounts(Run(w, acts[..m], RED), acts[m], RED);
    }
  }

  lemma NothingMiscounted(w: World)
    requires Init(w)
    ensures AlarmTells(w)
  {}

  /** A miscounted train is never reported: on every continuation its booking stays. */
  lemma {:induction false} MiscountedForever(w: World, acts: seq<Action>, t: nat)
    requires Inv(w) && LightsWithLeave(w) && t < |w.trains| && Miscounted(w, t)
    ensures
      var r := Run(w, acts, RED);
      && |r.trains| == |w.trains| && |r.stations| == |w.stations|
      && r.booked[t] == w.booked[t] && Miscounted(r, t)
  {
    hide Apply, Miscounted, AlarmTells;
    if acts != [] {
      var m := |acts| - 1;
      MiscountedForever(w, acts[..m], t);
      KeepsOn(w, acts[..m]);
      LightsGiveLeave(Run(w, acts[..m], RED), acts[m]);
      ActionCounts(Run(w, acts[..m], RED), acts[m], RED);
    }
  }

  // ---------------------------------------------------------------- a train that can be reported

  /** Train t can go on into a free segment, and its station has not lost a pulse of it. */
  predicate CanGoOn(w: World, t: nat)
    requires WellFormed(w) && t < |w.trains|
  {
    !Miscounted(w, t) && Next(|w.stations|, w.booked[t]) !in w.booked
  }

  ghost predicate SomeCanGoOn(w: World)
    requires WellFormed(w)
  {
    exists t :: 0 <= t < |w.trains| && CanGoOn(w, t)
  }

  /** Nothing but messages and beliefs differ. */
  predicate SamePlaces(w: World, r: World)
    requires WellFormed(w) && WellFormed(r)
  {
    && |r.stations| == |w.stations| && r.trains == w.trains && r.booked == w.booked
    && forall i :: 0 <= i < |w.stations| ==> r.stations[i].wheels.counter == w.stations[i].wheels.counter
  }

  lemma HearForward(w: World, k: nat)
    requires Inv(w) && k < |w.stations| && k in w.booked
    ensures
      var r := DoDeliverForward(w, k, 0);
      Inv(r) && SamePlaces(w, r) && r.stations[k].trainInLast
  {
    DeliverForwardKeeps(w, k, 0);
    assert Token(w, k);
  }

  lemma HearBackward(w: World, i: nat)
    requires Inv(w) && i < |w.stations| && w.stations[i].trainInLast && Next(|w.stations|, i) !in w.booked
    ensures
      var r := DoDeliverBackward(w, Next(|w.stations|, i), false, 0);
      Inv(r) && SamePlaces(w, r) && r.stations[i].lamp.allowGreen
  {
    var k := Next(|w.stations|, i);
    DeliverBackwardKeeps(w, k, false, 0);
    PrevOfNext(|w.stations|, i);
    assert Token(w, k);
  }

  /** Once the messages to its station have come, such a train has leave. */
  lemma GainLeave(w: World, acts: seq<Action>, t: nat, level: bool) returns (more: seq<Action>)
    requires WellFormed(w) && Inv(Run(w, acts, level))
    requires
      var x := Run(w, acts, level);
      t < |x.trains| && Next(|x.stations|, x.booked[t]) !in x.booked
    ensures
      var x, r := Run(w, acts, level), Run(w, more, level);
      Inv(r) && SamePlaces(x, r) && r.stations[x.booked[t]].lamp.allowGreen
  {
    hide Run, Inv, DoDeliverForward, DoDeliverBackward, SamePlaces;
    var x := Run(w, acts, level);
    Booking(x, t);
    var b := x.booked[t];
    RunOneMore(w, acts, DeliverForward(b, 0), level);
    more := acts + [DeliverForward(b, 0)];
    HearForward(x, b);
    var y := Run(w, more, level);
    PlacesSame(x, y);
    HearBackward(y, b);
    var k := Next(|x.stations|, b);
    RunOneMore(w, more, DeliverBackward(k, false, 0), level);
    more := more + [DeliverBackward(k, false, 0)];
    SamePlacesTwice(x, y, Run(w, more, level));
  }

  lemma Booking(x: World, t: nat)
    requires WellFormed(x) && t < |x.trains|
    ensures |x.booked| == |x.trains| && x.booked[t] < |x.stations| && x.booked[t] in x.booked
  {}

  lemma PlacesSame(x: World, y: World)
    requires WellFormed(x) && WellFormed(y) && SamePlaces(x, y)
    ensures |y.stations| == |x.stations| && y.trains == x.trains && y.booked == x.booked
  {
    hide WellFormed;
  }

  lemma SamePlacesTwice(x: World, y: World, z: World)
    requires WellFormed(x) && WellFormed(y) && WellFormed(z) && SamePlaces(x, y) && SamePlaces(y, z)
    ensures SamePlaces(x, z)
  {
    hide WellFormed;
  }

  /** With leave, and no pulse lost, it comes to be counted whole, from wherever it is. */
  lemma CrossOver(w: World, acts: seq<Action>, t: nat, level: bool) returns (more: seq<Action>)
    requires WellFormed(w) && Inv(Run(w, acts, level))
    requires
      var x := Run(w, acts, level);
      t < |x.trains| && !Miscounted(x, t) && x.stations[x.booked[t]].lamp.allowGreen
    ensures
      var x, r := Run(w, acts, level), Run(w, more, level);
      && |r.stations| == |x.stations| && r.booked == x.booked
      && Running(r.stations[x.booked[t]]) && r.stations[x.booked[t]].wheels.counter >= WHEEL_COUNT
  {
    hide Run;
    var x := Run(w, acts, level);
    var b := x.booked[t];
    assert Tracked(x, t);
    match x.trains[t]
    case Inside(k) =>
      if k == b {
        var lamp;
        more, lamp := CrossUnreported(w, acts, t, b, level);
      } else {
        more := acts;
      }
    case Passing(i, p) =>
      more := RunPulses(w, acts, t, WHEEL_COUNT - p, level);
      PulsesCount(x, t, WHEEL_COUNT - p);
  }

  /** Then it is reported: it is booked one segment further. */
  lemma GoesOn(w: World, acts: seq<Action>, t: nat, level: bool) returns (more: seq<Action>)
    requires WellFormed(w) && Inv(Run(w, acts, level))
    requires var x := Run(w, acts, level); t < |x.trains| && CanGoOn(x, t)
    ensures
      var x, r := Run(w, acts, level), Run(w, more, level);
      r.booked == x.booked[t := Next(|x.stations|, x.booked[t])]
  {
    var x := Run(w, acts, level);
    more := GainLeave(w, acts, t, level);
    SameMiscount(x, Run(w, more, level), t);
    more := CrossOver(w, more, t, level);
    WholeIsReported(Run(w, more, level), x.booked[t], level);
    RunOneMore(w, more, Poll(x.booked[t], 0), level);
    more := more + [Poll(x.booked[t], 0)];
    RebookedOne(x, t);
  }

  lemma SameMiscount(x: World, r: World, t: nat)
    requires WellFormed(x) && WellFormed(r) && SamePlaces(x, r) && t < |x.trains|
    ensures Miscounted(r, t) == Miscounted(x, t)
  {}

  lemma RebookedOne(x: World, t: nat)
    requires Inv(x) && t < |x.trains|
    ensures Rebook(x.booked, |x.stations|, x.booked[t]) == x.booked[t := Next(|x.stations|, x.booked[t])]
  {
    RebookIs(x.booked, |x.stations|, t);
  }

  lemma WholeIsReported(x: World, i: nat, level: bool)
    requires WellFormed(x) && i < |x.stations| && Running(x.stations[i]) && x.stations[i].wheels.counter >= WHEEL_COUNT
    ensures DoPoll(x, i, 0, level).booked == Rebook(x.booked, |x.stations|, i)
  {
    PolledStation(x.stations[i], 0, level);
  }

  // ---------------------------------------------------------------- a line that stands for good

  /** No light is green without leave, and every train with a free segment in front of it is miscounted. */
  ghost predicate Stuck(w: World) {
    Inv(w) && LightsWithLeave(w) && !SomeCanGoOn(w)
  }

  /** Nobody may start, and no crossing is about to be reported. */
  lemma StuckMeans(w: World)
    requires Stuck(w)
    ensures forall t :: 0 <= t < |w.trains| ==> !CanDepart(w, t)
    ensures forall i :: 0 <= i < |w.stations| ==> w.stations[i].wheels.counter < WHEEL_COUNT
  {
    forall t | 0 <= t < |w.trains| ensures !CanDepart(w, t) {
      if CanDepart(w, t) {
        var k := w.trains[t].segment;
        NextIsFree(w, k);
        assert Tracked(w, t) && Token(w, k) && w.booked[t] in w.booked;
        if k != w.booked[t] { NextIsFree(w, w.booked[t]); }
        assert CanGoOn(w, t);
      }
    }
    forall i | 0 <= i < |w.stations| ensures w.stations[i].wheels.counter < WHEEL_COUNT {
      if i in w.booked {
        var t :| 0 <= t < |w.booked| && w.booked[t] == i;
        assert Tracked(w, t);
        if w.stations[i].lamp.allowGreen { NextIsFree(w, i); }
        assert !CanGoOn(w, t);
      }
    }
  }

  /** Whatever is written after a crossing: a stuck line stays stuck, with the same bookings. */
  lemma StuckStays(w: World, a: Action, level: bool)
    requires Stuck(w)
    ensures Stuck(Apply(w, a, level)) && Apply(w, a, level).booked == w.booked
    ensures |Apply(w, a, level).stations| == |w.stations|
  {
    StuckMeans(w);
    LightsGiveLeave(w, a);
    ActionKeeps(w, a, level);
    ActionCounts(w, a, level);
    var r := Apply(w, a, level);
    StuckLights(w, a, level);
    forall t | 0 <= t < |r.trains| ensures CanGoOn(r, t) ==> CanGoOn(w, t) {}
  }

  lemma StuckLights(w: World, a: Action, level: bool)
    requires Stuck(w)
    requires forall i :: 0 <= i < |w.stations| ==> w.stations[i].wheels.counter < WHEEL_COUNT
    ensures LightsWithLeave(Apply(w, a, level)) && Apply(w, a, level).booked == w.booked
    ensures |Apply(w, a, level).stations| == |w.stations|
  {
    hide Inv, RunOnce, Running;
    match a
    case Depart(t) =>
    case Pulse(t) => PulseLights(w, t);
    case Poll(i, now) =>
      if i < |w.stations| {
        QuietPollKeeps(w, i, now, level);
        assert Running(w.stations[i]) by { RunningStation(w, i); }
        PolledStation(w.stations[i], now, level);
      }
    case DeliverForward(k, now) => DeliverForwardKeeps(w, k, now);
    case DeliverBackward(k, prox, now) => DeliverBackwardKeeps(w, k, prox, now);
    case Central(i, m, prox, now) => CentralKeeps(w, i, m, prox, now);
  }

  lemma RunningStation(w: World, i: nat)
    requires Inv(w) && i < |w.stations|
    ensures Running(w.stations[i])
  {}

  lemma PulseLights(w: World, t: nat)
    requires Inv(w) && LightsWithLeave(w)
    ensures LightsWithLeave(DoPulse(w, t)) && |DoPulse(w, t).stations| == |w.stations|
  {}

  lemma {:induction false} StuckForever(w: World, acts: seq<Action>, level: bool)
    requires Stuck(w)
    ensures Stuck(Run(w, acts, level)) && Run(w, acts, level).booked == w.booked
  {
    hide Apply, SomeCanGoOn;
    if acts != [] {
      StuckForever(w, acts[..|acts| - 1], level);
      StuckStays(Run(w, acts[..|acts| - 1], level), acts[|acts| - 1], level);
    }
  }

  /** Whatever happens, and whatever is written after a crossing, no train departs and none is reported. */
  ghost predicate StandsForGood(w: World)
    requires WellFormed(w)
  {
    forall acts, level ::
      var r := Run(w, acts, level);
      r.booked == w.booked && forall t :: 0 <= t < |r.trains| ==> !CanDepart(r, t)
  }

  /** In a state of the line some continuation leads to a report exactly if some train can go on in this sense:
      it has a free segment in front of it, and its station has not lost a pulse of it.  Else the line stands
      for good. */
  lemma GoesOnIff(w: World, level: bool)
    requires Inv(w) && LightsWithLeave(w)
    ensures (exists acts :: Run(w, acts, level).booked != w.booked) <==> SomeCanGoOn(w)
    ensures StandsForGood(w) <==> !SomeCanGoOn(w)
  {
    hide Apply;
    if SomeCanGoOn(w) {
      var t :| 0 <= t < |w.trains| && CanGoOn(w, t);
      assert Run(w, [], level) == w;
      var acts := GoesOn(w, [], t, level);
      NextIsOther(w, t);
      assert Run(w, acts, level).booked != w.booked;
    } else {
      StuckStands(w);
    }
  }

  lemma StuckStands(w: World)
    requires WellFormed(w) && Stuck(w)
    ensures StandsForGood(w)
  {
    hide Stuck, CanDepart;
    forall acts, level
      ensures
        var r := Run(w, acts, level);
        r.booked == w.booked && forall t :: 0 <= t < |r.trains| ==> !CanDepart(r, t)
    {
      StuckForever(w, acts, level);
      StuckMeans(Run(w, acts, level));
    }
  }

  lemma NextIsOther(w: World, t: nat)
    requires WellFormed(w) && t < |w.trains| && CanGoOn(w, t)
    ensures w.booked[t := Next(|w.stations|, w.booked[t])] != w.booked
  {
    assert w.booked[t] in w.booked;
  }

  // ---------------------------------------------------------------- deadlock

  /** On every run from the start, of a line that is neither empty nor full: unless a station has told of a partial
      count, some continuation leads to a report, so the line does not stand still. */
  lemma GoesOnUnlessPartial(w: World, acts: seq<Action>)
    requires Init(w) && 0 < |w.trains| < |w.stations| && PartialCount !in Run(w, acts, RED).alarms
    ensures var x := Run(w, acts, RED); exists more :: Run(x, more, RED).booked != x.booked
  {
    var x := Run(w, acts, RED);
    RunKeeps(w, acts);
    MiscountedIffTold(w, acts);
    SameSizes(w, acts);
    var t := FreeToGo(x);
    GoesOnIff(x, RED);
  }

  lemma {:induction false} SameSizes(w: World, acts: seq<Action>)
    requires WellFormed(w)
    ensures |Run(w, acts, RED).trains| == |w.trains| && |Run(w, acts, RED).stations| == |w.stations|
  {
    if acts != [] {
      SameSizes(w, acts[..|acts| - 1]);
    }
  }

  lemma FreeToGo(x: World) returns (t: nat)
    requires WellFormed(x) && 0 < |x.trains| < |x.stations| && !SomeMiscounted(x)
    ensures t < |x.trains| && CanGoOn(x, t)
  {
    var n := |x.stations|;
    var b := seq(n, k => k in x.booked);
    var free := SomeoneMissing(n, x.booked);
    assert !b[free] && b[x.booked[0]];
    var i := SomewhereToGo(b);
    t :| 0 <= t < |x.booked| && x.booked[t] == i;
    assert !Miscounted(x, t);
  }

  /** Once all messages have arrived and no train is miscounted, a line that is neither empty nor full has a train
      that goes on: if it still stands at the end of its segment it departs on the green light that the centre's next
      request brings, and wherever it is a run leads to its report. */
  lemma SomebodyMayGo(w: World, prox: bool, now: int, level: bool) returns (t: nat, acts: seq<Action>)
    requires Inv(w) && 0 < |w.trains| < |w.stations| && !SomeMiscounted(w)
    requires forall k :: 0 <= k < |w.stations| ==> w.forward[k] == [] && w.backward[k] == []
    ensures t < |w.trains| && Next(|w.stations|, w.booked[t]) !in w.booked
    ensures w.trains[t] == Inside(w.booked[t]) ==> CanDepart(DoCentral(w, w.booked[t], LightGreen, prox, now), t)
    ensures Run(w, acts, level).booked == w.booked[t := Next(|w.stations|, w.booked[t])]
  {
    t := FreeToGo(w);
    assert Run(w, [], level) == w;
    acts := GoesOn(w, [], t, level);
    var i := w.booked[t];
    PrevOfNext(|w.stations|, i);
    assert Token(w, i) && Token(w, Next(|w.stations|, i)) && i in w.booked;
  }

  /** The line can come to stand for good, with every message delivered and no train in anybody's way: a line of two
      segments and one train, which stops across the sensor for half a minute and then goes on. */
  lemma ALineStandsForGood() returns (w: World, acts: seq<Action>)
    ensures Init(w) && 1 == |w.trains| < |w.stations|
    ensures
      var x := Run(w, acts, RED);
      && (forall k :: 0 <= k < |x.stations| ==> x.forward[k] == [] && x.backward[k] == [])
      && PartialCount in x.alarms && x.booked == [0] && x.trains == [Inside(1)]
      && StandsForGood(x)
  {
    w := World([At(true, false), At(false, true)], [[], []], [[], []], [Inside(0)], [0], []);
    assert w.booked[0] == 0;
    acts := StopsOnSensor(w);
    RunKeeps(w, acts);
    var x := Run(w, acts, RED);
    assert Miscounted(x, 0);
    StuckStands(x);
  }

  lemma StopsOnSensor(w: World) returns (acts: seq<Action>)
    requires w == World([At(true, false), At(false, true)], [[], []], [[], []], [Inside(0)], [0], [])
    requires WellFormed(w)
    ensures
      var x := Run(w, acts, RED);
      && |x.stations| == 2 && x.forward == [[], []] && x.backward == [[], []]
      && PartialCount in x.alarms && x.booked == [0] && x.trains == [Inside(1)] && x.stations[0].wheels.counter == 7
  {
    hide Run;
    assert Run(w, [], RED) == w by { RunNothing(w, RED); }
    var lamp;
    acts, lamp := StartOnGreen(w, [], 0, 0, RED);
    var d := Run(w, acts, RED);
    acts := RunPulses(w, acts, 0, 1, RED);
    PulsesCount(d, 0, 1);
    RunOneMore(w, acts, Poll(0, 0), RED);
    acts := acts + [Poll(0, 0)];
    RunOneMore(w, acts, Poll(0, 31), RED);
    acts := acts + [Poll(0, 31)];
    var e := Run(w, acts, RED);
    acts := RunPulses(w, acts, 0, 7, RED);
    PulsesCount(e, 0, 7);
  }

  lemma RunNothing(w: World, level: bool)
    requires WellFormed(w)
    ensures Run(w, [], level) == w
  {}

  // ---------------------------------------------------------------- one lost pulse stops the whole line

  /** How many segments there are from b on to c. */
  function Gap(n: nat, b: nat, c: nat): nat
    requires b < n && c < n
  {
    if b <= c then c - b else c + n - b
  }

  function Gaps(n: nat, booked: seq<nat>, c: nat): nat
    requires c < n && forall t :: 0 <= t < |booked| ==> booked[t] < n
  {
    if booked == [] then 0
    else var m := |booked| - 1;
         Gaps(n, booked[..m], c) + Gap(n, booked[m], c)
  }

  lemma {:induction false} GapCloses(n: nat, booked: seq<nat>, c: nat, t: nat)
    requires c < n && forall u :: 0 <= u < |booked| ==> booked[u] < n
    requires t < |booked| && booked[t] != c
    ensures Gaps(n, booked[t := Next(n, booked[t])], c) + 1 == Gaps(n, booked, c)
  {
    var m := |booked| - 1;
    var r := booked[t := Next(n, booked[t])];
    if t < m {
      GapCloses(n, booked[..m], c, t);
      assert r[..m] == booked[..m][t := Next(n, booked[t])];
    } else {
      assert r[..m] == booked[..m];
    }
  }

  lemma {:induction false} GapsBound(n: nat, booked: seq<nat>, c: nat)
    requires c < n && forall u :: 0 <= u < |booked| ==> booked[u] < n
    ensures Gaps(n, booked, c) <= |booked| * (n - 1)
  {
    if booked != [] {
      var m := |booked| - 1;
      GapsBound(n, booked[..m], c);
      OneMoreTime(m, n - 1);
    }
  }

  lemma OneMoreTime(m: nat, k: nat)
    ensures (m + 1) * k == m * k + k
  {}

  /** How many crossings are reported on a run. */
  function Reports(w: World, acts: seq<Action>, level: bool): nat
    requires WellFormed(w)
  {
    if acts == [] then 0
    else var m := |acts| - 1;
         Reports(w, acts[..m], level)
         + if Run(w, acts, level).booked != Run(w, acts[..m], level).booked then 1 else 0
  }

  /** An action reports at most one crossing, and never that of a miscounted train. */
  lemma ActionReports(w: World, a: Action, t: nat, level: bool)
    requires Inv(w) && !StartsWithoutLeave(w, a) && t < |w.trains| && Miscounted(w, t)
    ensures
      var r := Apply(w, a, level);
      || r.booked == w.booked
      || exists u :: 0 <= u < |w.booked| && w.booked[u] != w.booked[t] && r.booked == w.booked[u := Next(|w.stations|, w.booked[u])]
  {
    if a.Poll? && a.station < |w.stations| {
      var i := a.station;
      PolledStation(w.stations[i], a.now, level);
      if w.stations[i].wheels.counter >= WHEEL_COUNT {
        var u :| 0 <= u < |w.booked| && w.booked[u] == i;
        RebookedOne(w, u);
        assert Tracked(w, t);
      }
    }
  }

  lemma {:induction false} ReportsCloseGaps(w: World, acts: seq<Action>, t: nat)
    requires Inv(w) && LightsWithLeave(w) && t < |w.trains| && Miscounted(w, t)
    ensures
      var n, c, r := |w.stations|, w.booked[t], Run(w, acts, RED);
      |r.stations| == n && Reports(w, acts, RED) + Gaps(n, r.booked, c) == Gaps(n, w.booked, c)
  {
    hide Apply, Miscounted, Gap, Gaps;
    MiscountedForever(w, acts, t);
    if acts != [] {
      var m := |acts| - 1;
      ReportsCloseGaps(w, acts[..m], t);
      MiscountedForever(w, acts[..m], t);
      KeepsOn(w, acts[..m]);
      var x := Run(w, acts[..m], RED);
      LightsGiveLeave(x, acts[m]);
      ActionReports(x, acts[m], t, RED);
      var r := Apply(x, acts[m], RED);
      if r.booked != x.booked {
        var u :| 0 <= u < |x.booked| && x.booked[u] != x.booked[t] && r.booked == x.booked[u := Next(|x.stations|, x.booked[u])];
        GapCloses(|w.stations|, x.booked, w.booked[t], u);
      }
    }
  }

  /** After the first partial count that is told, however the run goes on, no train overtakes the one that was lost:
      at most so many crossings are ever reported. */
  lemma OneLossStopsTheLine(w: World, acts: seq<Action>, more: seq<Action>)
    requires Init(w) && PartialCount in Run(w, acts, RED).alarms
    ensures Reports(Run(w, acts, RED), more, RED) <= |w.trains| * (|w.stations| - 1)
  {
    var x := Run(w, acts, RED);
    RunKeeps(w, acts);
    SameSizes(w, acts);
    MiscountedIffTold(w, acts);
    var t :| 0 <= t < |x.trains| && Miscounted(x, t);
    ReportsCloseGaps(x, more, t);
    GapsBound(|x.stations|, x.booked, x.booked[t]);
  }
}
