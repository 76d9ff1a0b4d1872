/** How trains come, run and go. */
module SimTraffic {
  // What one turn of the main loop does to each train by itself, whatever the others do, and to the line as a whole when
  // a train asks to enter.

  import opened Ring
  import opened Events
  import opened DcAlg
  import opened Sim

  // ---------------------------------------------------------------- entries

  /** A train that another voter refuses stays out, and leaves no trace in the books of the dc machine. */
  lemma RefusedStaysOut(l: Line, p: Plant, now: real)
    requires Fits(l, p) && LightsTell(p.dc) && !p.dc.sections[0].requested
    ensures
      var r := AddTrain(l, p, now, false);
      && r.trains == p.trains && r.dc.sections == p.dc.sections && r.dc.lights == p.dc.lights
      && r.actual == p.actual && r.crossedRed == p.crossedRed
  {}

  /** The dc machine and all the other voters grant an entry, and train i is the first that is free. */
  predicate Comes(p: Plant, key: Key, i: nat)
    requires |p.dc.sections| > 0
  {
    && key.InsertKey? && key.othersGrant && Grants(p.dc, 0)
    && i < |p.trains| && !p.trains[i].active && forall j :: 0 <= j < i ==> p.trains[j].active
  }

  /** An entrant is in section 0, past its detector, and reaches the station as long after as the entrance takes. */
  lemma EntrantArrives(l: Line, tr: Train, now: real, later: real)
    requires Laid(l)
    ensures
      var e := EnteringTrain(l, tr, now);
      && e.active && !e.exiting && !e.atStation && e.pastDetector && e.section == 0
      && (later - e.timeEntered > e.timeToStation <==> later - now > l.timeToEntrance[0])
      && e.timeToStation == l.sectionTime[0] - l.dwellTime && e.arrivedAtStation == tr.arrivedAtStation
  {}

  lemma {:induction false} FirstFree(trains: seq<Train>, from: nat, i: nat)
    requires from <= i <= |trains| && (forall j :: from <= j < i ==> trains[j].active)
    requires i < |trains| ==> !trains[i].active
    ensures FirstInactive(trains, from) == i
    decreases i - from
  {
    if from < i {
      FirstFree(trains, from + 1, i);
    }
  }

  /** What a key does to train i. */
  lemma KeyDoes(l: Line, p: Plant, now: real, key: Key, i: nat)
    requires Fits(l, p) && i < |p.trains|
    ensures
      var tr, r := p.trains[i], PressKey(l, p, now, key);
      && r.actual == p.actual
      && r.trains[i] == if Comes(p, key, i) then EnteringTrain(l, tr, now)
                        else if key.RemoveKey? && tr.active && tr.section == Prev(l.Size(), 0) then tr.(exiting := true)
                        else tr
  {
    if Comes(p, key, i) { FirstFree(p.trains, 0, i); }
  }

  // ---------------------------------------------------------------- one train in one tick

  /** An active train at the entrance of its section, told to leave, is out. */
  predicate Leaves(l: Line, tr: Train, now: real)
    requires tr.section < l.Size() == |l.timeToEntrance|
  {
    tr.active && l.hasEntrance[tr.section] && tr.exiting && now - tr.timeEntered >= l.timeToEntrance[tr.section]
  }

  predicate Arrives(tr: Train, now: real) {
    !tr.arrivedAtStation && now - tr.timeEntered > tr.timeToStation
  }

  /** Passengers have boarded, and the lamp of the next section is green. */
  predicate Departs(l: Line, actual: seq<bool>, tr: Train, now: real)
    requires tr.section < l.Size() == |actual|
  {
    && !Arrives(tr, now) && tr.atStation && actual[Next(l.Size(), tr.section)]
    && now - tr.timeEntered > tr.timeToStation + l.dwellTime
  }

  /** From `tr` a tick makes `r`, of an active train that stays in the system. */
  predicate Runs(l: Line, actual: seq<bool>, tr: Train, r: Train, now: real, driveTime: real)
    requires tr.section < l.Size() == |actual| == |l.timeToEntrance|
  {
    && r.active && r.exiting == tr.exiting
    && (Departs(l, actual, tr, now) ==>
          && r.section == Next(l.Size(), tr.section) && !r.atStation && !r.arrivedAtStation && !r.pastDetector
          && r.timeEntered == now - l.timeToEntrance[tr.section] && r.timeToStation == driveTime)
    && (!Departs(l, actual, tr, now) ==>
          && r.section == tr.section && r.timeEntered == tr.timeEntered && r.timeToStation == tr.timeToStation
          && r.pastDetector == (tr.pastDetector || now - tr.timeEntered > l.timeToDetector)
          && r.arrivedAtStation == (tr.arrivedAtStation || Arrives(tr, now))
          && r.atStation == (tr.atStation || Arrives(tr, now)))
  }

  predicate OnlyTrain(p: Plant, r: Plant, i: nat, tr: Train)
    requires i < |p.trains|
  {
    r.actual == p.actual && r.trains == p.trains[i := tr]
  }

  lemma LeaveDoes(l: Line, p: Plant, i: nat, now: real)
    requires Fits(l, p) && i < |p.trains|
    ensures
      var tr := p.trains[i];
      OnlyTrain(p, LeaveSystem(l, p, i, now), i, tr.(active := tr.active && !Leaves(l, tr, now)))
      || !tr.active
  {
    hide ExitEvent;
    assert p.trains[i := p.trains[i]] == p.trains;
  }

  lemma DetectDoes(l: Line, p: Plant, i: nat, now: real)
    requires Fits(l, p) && i < |p.trains|
    ensures
      var tr := p.trains[i];
      OnlyTrain(p, PassDetector(l, p, i, now), i,
                tr.(pastDetector := tr.pastDetector || now - tr.timeEntered > l.timeToDetector))
  {
    hide CrossingEvent;
    assert p.trains[i := p.trains[i]] == p.trains;
  }

  /** What a train is after arriving or departing. */
  function Gone(l: Line, actual: seq<bool>, tr: Train, now: real, driveTime: real): Train
    requires tr.section < l.Size() == |actual| == |l.timeToEntrance|
  {
    if Departs(l, actual, tr, now) then
      Train(tr.active, tr.exiting, Next(l.Size(), tr.section), now - l.timeToEntrance[tr.section], false, false, false, driveTime)
    else tr.(arrivedAtStation := tr.arrivedAtStation || Arrives(tr, now), atStation := tr.atStation || Arrives(tr, now))
  }

  lemma MoveDoes(l: Line, p: Plant, i: nat, now: real, driveTime: real)
    requires Fits(l, p) && i < |p.trains|
    ensures OnlyTrain(p, ArriveOrDepart(l, p, i, now, driveTime), i, Gone(l, p.actual, p.trains[i], now, driveTime))
  {
    assert p.trains[i := p.trains[i]] == p.trains;
  }

  lemma GoneRuns(l: Line, actual: seq<bool>, tr: Train, now: real, driveTime: real)
    requires tr.section < l.Size() == |actual| == |l.timeToEntrance| && tr.active
    ensures
      var seen := tr.(pastDetector := tr.pastDetector || now - tr.timeEntered > l.timeToDetector);
      Runs(l, actual, tr, Gone(l, actual, seen, now, driveTime), now, driveTime)
  {}

  lemma UpdateDoes(l: Line, p: Plant, i: nat, now: real, driveTime: real)
    requires Fits(l, p) && i < |p.trains|
    ensures
      var tr, r := p.trains[i], UpdateTrain(l, p, i, now, driveTime);
      && r.actual == p.actual && (forall j :: 0 <= j < |p.trains| && j != i ==> r.trains[j] == p.trains[j])
      && (!tr.active ==> r.trains[i] == tr)
      && (tr.active ==> (r.trains[i].active <==> !Leaves(l, tr, now)))
      && (tr.active && !Leaves(l, tr, now) ==> Runs(l, p.actual, tr, r.trains[i], now, driveTime))
  {
    hide LeaveSystem, PassDetector, ArriveOrDepart, Runs, Leaves, Arrives, Departs;
    var tr := p.trains[i];
    if tr.active {
      LeaveDoes(l, p, i, now);
      var q := LeaveSystem(l, p, i, now);
      DetectDoes(l, q, i, now);
      var d := PassDetector(l, q, i, now);
      MoveDoes(l, d, i, now, driveTime);
      GoneRuns(l, p.actual, tr, now, driveTime);
    }
  }

  lemma {:induction false} UpdatesDo(l: Line, p: Plant, count: nat, now: real, driveTimes: seq<real>, i: nat)
    requires Fits(l, p) && count <= |p.trains| == |driveTimes| && i < |p.trains|
    ensures
      var tr, r := p.trains[i], UpdateTrains(l, p, count, now, driveTimes);
      && r.actual == p.actual
      && (i >= count || !tr.active ==> r.trains[i] == tr)
      && (i < count && tr.active ==> (r.trains[i].active <==> !Leaves(l, tr, now)))
      && (i < count && tr.active && !Leaves(l, tr, now) ==> Runs(l, p.actual, tr, r.trains[i], now, driveTimes[i]))
  {
    hide UpdateTrain, Leaves, Runs;
    if count > 0 {
      UpdatesDo(l, p, count - 1, now, driveTimes, i);
      UpdateDoes(l, UpdateTrains(l, p, count - 1, now, driveTimes), count - 1, now, driveTimes[count - 1]);
    }
  }

  /** What train i is when the trains of the tick are updated: told to leave, or just put in, by the key. */
  function Keyed(l: Line, p: Plant, now: real, key: Key, i: nat): Train
    requires Fits(l, p) && i < |p.trains|
  {
    var tr := p.trains[i];
    if Comes(p, key, i) then EnteringTrain(l, tr, now)
    else tr.(exiting := tr.exiting || (key.RemoveKey? && tr.active && tr.section == Prev(l.Size(), 0)))
  }

  /** In a tick a train that is out comes in exactly if it is the first of these and everybody grants an entry; one
      that is in goes out exactly if it is at an entrance and told to leave; and the others arrive, wait and depart
      by their clocks and the lamps of the tick before. */
  lemma TickDoes(l: Line, p: Plant, now: real, x: Input, i: nat)
    requires Fits(l, p) && Plausible(l, |p.trains|, x) && i < |p.trains|
    ensures
      var tr, r := Keyed(l, p, now, x.key, i), Tick(l, p, now, x).trains[i];
      && tr.section < l.Size()
      && (r.active <==> (p.trains[i].active || Comes(p, x.key, i)) && !Leaves(l, tr, now))
      && (r.active ==> Runs(l, p.actual, tr, r, now, x.driveTimes[i]))
  {
    hide UpdateTrains, PressKey, EnteringTrain, Runs, Vote;
    EntrantArrives(l, p.trains[i], now, now);
    KeyDoes(l, p, now, x.key, i);
    UpdatesDo(l, PressKey(l, p, now, x.key), |p.trains|, now, x.driveTimes, i);
  }

  /** On a run on which no entry is granted by all, a train that is out stays out. */
  lemma {:induction false} NobodyComesUngranted(l: Line, p: Plant, xs: seq<Input>, i: nat)
    requires Fits(l, p) && (forall j :: 0 <= j < |xs| ==> Plausible(l, |p.trains|, xs[j]))
    requires i < |p.trains| && !p.trains[i].active
    requires forall j :: 0 <= j < |xs| ==> xs[j].key != InsertKey(true)
    ensures !Run(l, p, xs).trains[i].active
  {
    hide Tick, Keyed, Runs, Leaves;
    if xs != [] {
      var m := |xs| - 1;
      NobodyComesUngranted(l, p, xs[..m], i);
      TickDoes(l, Run(l, p, xs[..m]), m as real, xs[m], i);
    }
  }

  // ---------------------------------------------------------------- entrants that never go on

  /** A train that leaves keeps what its record says about arriving, and may even arrive in the same update. */
  lemma LeavesWithRecord(l: Line, p: Plant, i: nat, now: real, driveTime: real)
    requires Fits(l, p) && i < |p.trains| && Leaves(l, p.trains[i], now)
    ensures
      var tr, r := p.trains[i], UpdateTrain(l, p, i, now, driveTime);
      !r.trains[i].active
      && r.trains[i].arrivedAtStation == (!Departs(l, p.actual, tr, now) && (tr.arrivedAtStation || Arrives(tr, now)))
  {
    hide LeaveSystem, PassDetector, ArriveOrDepart;
    LeaveDoes(l, p, i, now);
    var q := LeaveSystem(l, p, i, now);
    DetectDoes(l, q, i, now);
    MoveDoes(l, PassDetector(l, q, i, now), i, now, driveTime);
  }

  /** In its section, not at the station, but recorded as having arrived. */
  predicate Stranded(tr: Train) {
    tr.active && !tr.exiting && tr.section == 0 && tr.arrivedAtStation && !tr.atStation
  }

  /** What an entrant is after a tick: it is stranded at once if its record, from its last turn on the line, says that
      it has arrived; and only then, if the way from the entrance to the station takes any time. */
  lemma ComesStranded(l: Line, p: Plant, now: real, x: Input, i: nat)
    requires Fits(l, p) && Plausible(l, |p.trains|, x) && i < |p.trains| && Comes(p, x.key, i)
    ensures p.trains[i].arrivedAtStation ==> Stranded(Tick(l, p, now, x).trains[i])
    ensures l.timeToEntrance[0] >= 0.0 && !p.trains[i].arrivedAtStation ==> !Tick(l, p, now, x).trains[i].arrivedAtStation
  {
    hide Tick, EnteringTrain;
    EntrantArrives(l, p.trains[i], now, now);
    TickDoes(l, p, now, x, i);
  }

  /** A stranded train stays where it is for good, on every run, whatever the keys and the lamps. */
  lemma {:induction false} StrandedForGood(l: Line, p: Plant, xs: seq<Input>, i: nat)
    requires Fits(l, p) && (forall j :: 0 <= j < |xs| ==> Plausible(l, |p.trains|, xs[j]))
    requires l.Size() > 1 && i < |p.trains| && Stranded(p.trains[i])
    ensures Stranded(Run(l, p, xs).trains[i])
  {
    hide Tick, EnteringTrain;
    if xs != [] {
      var m := |xs| - 1;
      StrandedForGood(l, p, xs[..m], i);
      TickDoes(l, Run(l, p, xs[..m]), m as real, xs[m], i);
    }
  }
}
