/** How long lights and counts last. */
module RtuTiming {
  // Of every station on the line, over whole runs: a light is not left green, and a count is not discarded too early.

  import opened Ring
  import opened Rtu
  import opened RtuLine
  import opened RtuProgress

  /** In some action before the m-th the centre ordered station i to be green, at time `now`. */
  predicate OrderedGreen(acts: seq<Action>, i: nat, now: int) {
    exists j :: 0 <= j < |acts| && acts[j].Central? && acts[j].station == i && acts[j].message == LightGreen && acts[j].now == now
  }

  predicate PolledAt(acts: seq<Action>, i: nat, now: int) {
    exists j :: 0 <= j < |acts| && acts[j] == Poll(i, now)
  }

  /** A light that is green is timed from an order to be green, a count that is timed from a poll. */
  predicate Timed(s: Station, acts: seq<Action>, i: nat) {
    && (s.lamp.light == GREEN ==> s.lamp.isGreen && OrderedGreen(acts, i, s.lamp.greenTime))
    && (s.wheels.countDetected ==> PolledAt(acts, i, s.wheels.countDetectTime))
  }

  ghost predicate AllTimed(w: World, acts: seq<Action>) {
    forall i: nat :: i < |w.stations| ==> Timed(w.stations[i], acts, i)
  }

  lemma OneMoreAct(acts: seq<Action>, a: Action, i: nat, now: int)
    ensures OrderedGreen(acts, i, now) ==> OrderedGreen(acts + [a], i, now)
    ensures PolledAt(acts, i, now) ==> PolledAt(acts + [a], i, now)
    ensures a.Central? && a.station == i && a.message == LightGreen && a.now == now ==> OrderedGreen(acts + [a], i, now)
    ensures a == Poll(i, now) ==> PolledAt(acts + [a], i, now)
  {
    var more := acts + [a];
    assert more[|acts|] == a;
    if OrderedGreen(acts, i, now) {
      var j :| 0 <= j < |acts| && acts[j].Central? && acts[j].station == i && acts[j].message == LightGreen && acts[j].now == now;
      assert more[j] == acts[j];
    }
    if PolledAt(acts, i, now) {
      var j :| 0 <= j < |acts| && acts[j] == Poll(i, now);
      assert more[j] == acts[j];
    }
  }

  /** A light and timers that are as before stay timed. */
  lemma StillTimed(s: Station, r: Station, acts: seq<Action>, a: Action, i: nat)
    requires Timed(s, acts, i)
    requires r.lamp.light == GREEN ==> s.lamp.light == GREEN && r.lamp.isGreen == s.lamp.isGreen && r.lamp.greenTime == s.lamp.greenTime
    requires r.wheels.countDetected ==> s.wheels.countDetected && r.wheels.countDetectTime == s.wheels.countDetectTime
    ensures Timed(r, acts + [a], i)
  {
    hide OrderedGreen, PolledAt;
    OneMoreAct(acts, a, i, s.lamp.greenTime);
    OneMoreAct(acts, a, i, s.wheels.countDetectTime);
  }

  lemma PollTimed(s: Station, acts: seq<Action>, i: nat, now: int)
    requires Running(s) && Timed(s, acts, i)
    ensures Timed(RunOnce(s, now, RED).0, acts + [Poll(i, now)], i)
  {
    PolledLight(s, now, RED);
    PolledTimer(s, now, RED);
    hide OrderedGreen, PolledAt, RunOnce;
    var a := Poll(i, now);
    OneMoreAct(acts, a, i, s.lamp.greenTime);
    OneMoreAct(acts, a, i, s.wheels.countDetectTime);
    OneMoreAct(acts, a, i, now);
  }

  lemma CentralTimed(s: Station, acts: seq<Action>, i: nat, m: Message, prox: bool, now: int)
    requires Timed(s, acts, i) && m != Stop && m != Start
    ensures Timed(FromCentral(s, m, prox, now).0, acts + [Central(i, m, prox, now)], i)
  {
    CentreIsAnswered(s, m, prox, now);
    hide OrderedGreen, PolledAt, FromCentral;
    var a := Central(i, m, prox, now);
    OneMoreAct(acts, a, i, s.lamp.greenTime);
    OneMoreAct(acts, a, i, s.wheels.countDetectTime);
    OneMoreAct(acts, a, i, now);
  }

  /** The station that action a may change. */
  function Concerned(w: World, a: Action): int
    requires WellFormed(w)
  {
    match a
    case Depart(_) => -1
    case Pulse(t) => if t < |w.trains| && w.trains[t].Passing? then w.trains[t].station else -1
    case Poll(i, _) => i
    case DeliverForward(k, _) => k
    case DeliverBackward(k, _, _) => if k < |w.stations| then Prev(|w.stations|, k) else -1
    case Central(i, _, _, _) => i
  }

  lemma OthersStay(w: World, a: Action, i: nat)
    requires WellFormed(w) && i < |w.stations| && i != Concerned(w, a)
    ensures |Apply(w, a, RED).stations| == |w.stations| && Apply(w, a, RED).stations[i] == w.stations[i]
  {
    hide RunOnce, FromCentral, FromNext, FromLast;
  }

  lemma ConcernedTimed(w: World, acts: seq<Action>, a: Action)
    requires Inv(w) && AllTimed(w, acts) && 0 <= Concerned(w, a) < |w.stations|
    ensures
      var i, r := Concerned(w, a), Apply(w, a, RED);
      |r.stations| == |w.stations| && Timed(r.stations[i], acts + [a], i)
  {
    hide OrderedGreen, PolledAt, RunOnce, FromCentral;
    var i := Concerned(w, a);
    var s, r := w.stations[i], Apply(w, a, RED);
    assert Timed(s, acts, i) && Running(s);
    match a
    case Pulse(t) => StillTimed(s, r.stations[i], acts, a, i);
    case Poll(_, now) => PollTimed(s, acts, i, now);
    case DeliverForward(k, now) => StillTimed(s, r.stations[i], acts, a, i);
    case DeliverBackward(k, prox, now) => StillTimed(s, r.stations[i], acts, a, i);
    case Central(_, m, prox, now) =>
      if m != Stop && m != Start { CentralTimed(s, acts, i, m, prox, now); } else { StillTimed(s, s, acts, a, i); }
  }

  lemma ActionTimed(w: World, acts: seq<Action>, a: Action)
    requires Inv(w) && AllTimed(w, acts)
    ensures AllTimed(Apply(w, a, RED), acts + [a])
  {
    hide Timed, Concerned, Apply;
    var r := Apply(w, a, RED);
    SameStations(w, a);
    forall i: nat | i < |r.stations| ensures Timed(r.stations[i], acts + [a], i) {
      if i == Concerned(w, a) {
        ConcernedTimed(w, acts, a);
      } else {
        OthersStay(w, a, i);
        assert Timed(w.stations[i], acts, i);
        StillTimed(w.stations[i], r.stations[i], acts, a, i);
      }
    }
  }

  lemma SameStations(w: World, a: Action)
    requires WellFormed(w)
    ensures |Apply(w, a, RED).stations| == |w.stations|
  {
    hide RunOnce, FromCentral, FromNext, FromLast;
  }

  lemma {:induction false} RunTimed(w: World, acts: seq<Action>)
    requires Init(w)
    ensures AllTimed(Run(w, acts, RED), acts)
  {
    hide AllTimed, Apply;
    if acts == [] {
      StartTimed(w);
    } else {
      var m := |acts| - 1;
      RunTimed(w, acts[..m]);
      RunKeeps(w, acts[..m]);
      ActionTimed(Run(w, acts[..m], RED), acts[..m], acts[m]);
      assert acts[..m] + [acts[m]] == acts;
    }
  }

  lemma StartTimed(w: World)
    requires Init(w)
    ensures AllTimed(w, [])
  {}

  /** On every run, with red after a crossing: a light that is green after a poll at `now` has been ordered green by
      the centre, no more than thirty seconds before. */
  lemma NotLeftGreen(w: World, acts: seq<Action>, i: nat, now: int)
    requires Init(w) && i < |w.stations|
    ensures |Run(w, acts + [Poll(i, now)], RED).stations| == |w.stations|
    ensures
      var s := Run(w, acts + [Poll(i, now)], RED).stations[i];
      s.lamp.light == GREEN ==> s.lamp.isGreen && now - s.lamp.greenTime <= 30 && OrderedGreen(acts, i, s.lamp.greenTime)
  {
    hide OrderedGreen, RunOnce;
    var x := Run(w, acts, RED);
    SameSizes(w, acts);
    RunOneMore(w, acts, Poll(i, now), RED);
    RunKeeps(w, acts);
    RunTimed(w, acts);
    assert Timed(x.stations[i], acts, i);
    PolledLight(x.stations[i], now, RED);
  }

  /** And a poll that discards a partial count comes more than thirty seconds after another poll of the station. */
  lemma NotDiscardedEarly(w: World, acts: seq<Action>, i: nat, now: int)
    requires Init(w) && i < |w.stations|
    ensures |Run(w, acts, RED).stations| == |w.stations|
    ensures PartialCount in RunOnce(Run(w, acts, RED).stations[i], now, RED).1.alarms ==>
              exists t0 :: PolledAt(acts, i, t0) && now - t0 > 30
  {
    hide OrderedGreen, RunOnce, PolledAt;
    var x := Run(w, acts, RED);
    SameSizes(w, acts);
    RunKeeps(w, acts);
    RunTimed(w, acts);
    assert Timed(x.stations[i], acts, i);
    PolledTimer(x.stations[i], now, RED);
  }

  /** With the level that is written, a light left green after a crossing is not timed, and no poll takes it back. */
  lemma {:induction false} LeftGreenAsWritten(s: Station, now: int, times: seq<int>)
    requires Running(s) && s.wheels.counter >= WHEEL_COUNT
    ensures
      var r := Polled(RunOnce(s, now, LEVEL_AFTER_CROSSING).0, times);
      Running(r) && r.lamp.light == GREEN && !r.lamp.isGreen && r.wheels.counter == 0
  {
    PolledLight(s, now, LEVEL_AFTER_CROSSING);
    PolledTimer(s, now, LEVEL_AFTER_CROSSING);
    PolledStation(s, now, LEVEL_AFTER_CROSSING);
    hide RunOnce;
    if times != [] {
      var m := |times| - 1;
      LeftGreenAsWritten(s, now, times[..m]);
      var q := Polled(RunOnce(s, now, LEVEL_AFTER_CROSSING).0, times[..m]);
      PolledLight(q, times[m], LEVEL_AFTER_CROSSING);
      PolledTimer(q, times[m], LEVEL_AFTER_CROSSING);
      PolledStation(q, times[m], LEVEL_AFTER_CROSSING);
    }
  }
}
