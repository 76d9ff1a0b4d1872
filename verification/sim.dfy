/** The simulated plant and the voter (classic_tcontrol/sim.cpp). */
module Sim {
  // Trains run on the latched stop lights and raise the events of the track; the voter latches the lights once per tick.
  // One voter is a dc machine; what the others say is an input, so the results hold whatever they are.

  import opened Ring
  import opened Events
  import opened DcAlg

  /** The line: entrances, driving times and the clocks the simulator works with. */
  datatype Line = Line(
    hasEntrance: seq<bool>, timeToEntrance: seq<real>, sectionTime: seq<real>,
    timeToDetector: real, dwellTime: real)
  {
    function Size(): nat { |hasEntrance| }
  }

  function Later(a: real, b: real): real { if a < b then b else a }

  /** A train that comes into a section with an entrance is seen by the detector at least one tick
      before it reaches the entrance, whatever section it comes from. */
  predicate Laid(l: Line) {
    && l.Size() > 0 && |l.timeToEntrance| == |l.sectionTime| == l.Size()
    && forall s :: 0 <= s < l.Size() && l.hasEntrance[s] ==>
         Later(l.timeToDetector, l.timeToEntrance[Prev(l.Size(), s)]) + 1.0 < l.timeToEntrance[s]
  }

  datatype Train = Train(
    active: bool, exiting: bool, section: nat, timeEntered: real,
    arrivedAtStation: bool, atStation: bool, pastDetector: bool, timeToStation: real)

  /** Trains, the dc machine, the latched lights, and whether some crossing was reported at a red light. */
  datatype Plant = Plant(trains: seq<Train>, dc: Dc, actual: seq<bool>, crossedRed: bool)

  predicate Fits(l: Line, p: Plant) {
    && Laid(l) && Sized(p.dc) && |p.dc.sections| == l.Size() && |p.actual| == l.Size()
    && (forall i :: 0 <= i < |p.trains| ==> p.trains[i].section < l.Size())
  }

  // ---------------------------------------------------------------- one train, one update

  function LeaveSystem(l: Line, p: Plant, i: nat, now: real): (r: Plant)
    requires Fits(l, p) && i < |p.trains|
    ensures Fits(l, r) && |r.trains| == |p.trains|
  {
    var tr := p.trains[i];
    if l.hasEntrance[tr.section] && tr.exiting && now - tr.timeEntered >= l.timeToEntrance[tr.section]
    then p.(dc := ExitEvent(p.dc, tr.section), trains := p.trains[i := tr.(active := false)])
    else p
  }

  function PassDetector(l: Line, p: Plant, i: nat, now: real): (r: Plant)
    requires Fits(l, p) && i < |p.trains|
    ensures Fits(l, r) && |r.trains| == |p.trains|
  {
    var tr := p.trains[i];
    if !tr.pastDetector && now - tr.timeEntered > l.timeToDetector
    then p.(dc := CrossingEvent(p.dc, tr.section), trains := p.trains[i := tr.(pastDetector := true)],
            crossedRed := p.crossedRed || !p.actual[tr.section])
    else p
  }

  function ArriveOrDepart(l: Line, p: Plant, i: nat, now: real, driveTime: real): (r: Plant)
    requires Fits(l, p) && i < |p.trains|
    ensures Fits(l, r) && |r.trains| == |p.trains|
  {
    var tr := p.trains[i];
    var next := Next(l.Size(), tr.section);
    if !tr.arrivedAtStation && now - tr.timeEntered > tr.timeToStation
    then p.(trains := p.trains[i := tr.(atStation := true, arrivedAtStation := true)])
    else if tr.atStation && now - tr.timeEntered > tr.timeToStation + l.dwellTime && p.actual[next]
    then p.(trains := p.trains[i := tr.(atStation := false, arrivedAtStation := false, pastDetector := false,
                                        timeEntered := now - l.timeToEntrance[tr.section], section := next,
                                        timeToStation := driveTime)])
    else p
  }

  /** `driveTime` is the time to the next station that the driver happens to take, should the train depart. */
  function UpdateTrain(l: Line, p: Plant, i: nat, now: real, driveTime: real): (r: Plant)
    requires Fits(l, p) && i < |p.trains|
    ensures Fits(l, r) && |r.trains| == |p.trains|
  {
    if !p.trains[i].active then p
    else ArriveOrDepart(l, PassDetector(l, LeaveSystem(l, p, i, now), i, now), i, now, driveTime)
  }

  function UpdateTrains(l: Line, p: Plant, count: nat, now: real, driveTimes: seq<real>): (r: Plant)
    requires Fits(l, p) && count <= |p.trains| <= |driveTimes|
    ensures Fits(l, r) && |r.trains| == |p.trains|
  {
    if count == 0 then p
    else UpdateTrain(l, UpdateTrains(l, p, count - 1, now, driveTimes), count - 1, now, driveTimes[count - 1])
  }

  // ---------------------------------------------------------------- keys, voter, tick

  function FirstInactive(trains: seq<Train>, from: nat): (r: nat)
    requires from <= |trains|
    ensures from <= r <= |trains|
    ensures r < |trains| ==> !trains[r].active
    ensures forall j :: from <= j < r ==> trains[j].active
    decreases |trains| - from
  {
    if from == |trains| || !trains[from].active then from else FirstInactive(trains, from + 1)
  }

  function EnteringTrain(l: Line, tr: Train, now: real): Train
    requires Laid(l)
  {
    var drive := l.sectionTime[0] - l.dwellTime;
    tr.(atStation := false, exiting := false, pastDetector := true, active := true, section := 0,
        timeToStation := drive, timeEntered := now - drive + l.timeToEntrance[0])
  }

  /** Ask for a train to be put in at section 0.  It is put in if the dc machine and, as `othersGrant`
      says, the other voters grant it, and taken back otherwise. */
  function AddTrain(l: Line, p: Plant, now: real, othersGrant: bool): (r: Plant)
    requires Fits(l, p)
    ensures Fits(l, r) && |r.trains| == |p.trains|
  {
    var asked := RequestEntry(p.dc, 0);
    if Grants(p.dc, 0) && othersGrant then
      var i := FirstInactive(p.trains, 0);
      if i == |p.trains| then p
      else p.(dc := EntryEvent(asked, 0), trains := p.trains[i := EnteringTrain(l, p.trains[i], now)])
    else p.(dc := CancelEntry(asked, 0))
  }

  /** Every train in the last section is told to leave at the next entrance. */
  function RemoveTrains(l: Line, p: Plant): (r: Plant)
    requires Fits(l, p)
    ensures Fits(l, r) && |r.trains| == |p.trains|
  {
    p.(trains := Marked(p.trains, Prev(l.Size(), 0), |p.trains|))
  }

  function Marked(trains: seq<Train>, section: nat, count: nat): (r: seq<Train>)
    requires count <= |trains|
    ensures |r| == |trains|
    ensures forall j :: 0 <= j < |trains| ==>
      r[j] == if j < count && trains[j].active && trains[j].section == section then trains[j].(exiting := true)
              else trains[j]
  {
    seq(|trains|, j requires 0 <= j < |trains| =>
      if j < count && trains[j].active && trains[j].section == section then trains[j].(exiting := true) else trains[j])
  }

  /** The vote: green only if the dc machine and all the others agree. */
  function Vote(lights: seq<bool>, others: seq<bool>): (r: seq<bool>)
    requires |lights| == |others|
    ensures |r| == |lights| && forall s :: 0 <= s < |r| ==> r[s] == (lights[s] && others[s])
  {
    seq(|lights|, s requires 0 <= s < |lights| => lights[s] && others[s])
  }

  datatype Key = NoKey | InsertKey(othersGrant: bool) | RemoveKey

  /** What comes from outside in one tick: a key, the driving times, and how the other voters vote. */
  datatype Input = Input(key: Key, driveTimes: seq<real>, others: seq<bool>)

  /** No driver reaches the station before the detector. */
  predicate Plausible(l: Line, trains: nat, x: Input) {
    && |x.driveTimes| == trains && |x.others| == l.Size()
    && forall i :: 0 <= i < trains ==> x.driveTimes[i] >= l.timeToDetector
  }

  function PressKey(l: Line, p: Plant, now: real, key: Key): (r: Plant)
    requires Fits(l, p)
    ensures Fits(l, r) && |r.trains| == |p.trains|
  {
    match key
    case NoKey => p
    case InsertKey(grant) => AddTrain(l, p, now, grant)
    case RemoveKey => RemoveTrains(l, p)
  }

  /** One turn of the main loop. */
  function Tick(l: Line, p: Plant, now: real, x: Input): (r: Plant)
    requires Fits(l, p) && Plausible(l, |p.trains|, x)
    ensures Fits(l, r) && |r.trains| == |p.trains|
  {
    var u := UpdateTrains(l, PressKey(l, p, now, x.key), |p.trains|, now, x.driveTimes);
    u.(actual := Vote(u.dc.lights, x.others))
  }

  /** The plant after all the ticks of `xs`, the first of them at time 0. */
  function Run(l: Line, p: Plant, xs: seq<Input>): (r: Plant)
    requires Fits(l, p) && forall i :: 0 <= i < |xs| ==> Plausible(l, |p.trains|, xs[i])
    ensures Fits(l, r) && |r.trains| == |p.trains|
  {
    if xs == [] then p
    else var m := |xs| - 1;
         Tick(l, Run(l, p, xs[..m]), m as real, xs[m])
  }

  // ---------------------------------------------------------------- the simulator

  class Simulator {
    const line: Line
    const dc: DcAlgorithm
    var trains: seq<Train>
    var actualStopLight: seq<bool>
    var crossedRed: bool

    ghost function State(): Plant
      reads this, dc
    {
      Plant(trains, dc.State(), actualStopLight, crossedRed)
    }

    constructor (line: Line, dc: DcAlgorithm, trains: seq<Train>)
      requires Laid(line) && Sized(dc.State()) && |dc.sections| == line.Size()
      requires forall i :: 0 <= i < |trains| ==> trains[i].section < line.Size()
      ensures this.line == line && this.dc == dc
      ensures Fits(line, State()) && this.trains == trains && !crossedRed
      ensures forall s :: 0 <= s < line.Size() ==> !actualStopLight[s]
    {
      this.line := line;
      this.dc := dc;
      this.trains := trains;
      actualStopLight := seq(line.Size(), s => false);
      crossedRed := false;
    }

    method Update(i: nat, now: real, driveTime: real)
      requires Fits(line, State()) && i < |trains|
      modifies this, dc
      ensures State() == UpdateTrain(line, old(State()), i, now, driveTime)
    {
      if !trains[i].active {
        return;
      }
      Leave(i, now);
      Detect(i, now);
      Move(i, now, driveTime);
    }

    method Leave(i: nat, now: real)
      requires Fits(line, State()) && i < |trains|
      modifies this, dc
      ensures State() == LeaveSystem(line, old(State()), i, now)
    {
      var tr := trains[i];
      var timeInSection := now - tr.timeEntered;
      if line.hasEntrance[tr.section] && tr.exiting && timeInSection >= line.timeToEntrance[tr.section] {
        dc.ProcessExit(tr.section);
        trains := trains[i := tr.(active := false)];
      }
    }

    method Detect(i: nat, now: real)
      requires Fits(line, State()) && i < |trains|
      modifies this, dc
      ensures State() == PassDetector(line, old(State()), i, now)
    {
      var tr := trains[i];
      var timeInSection := now - tr.timeEntered;
      if !tr.pastDetector && timeInSection > line.timeToDetector {
        trains := trains[i := tr.(pastDetector := true)];
        if !actualStopLight[tr.section] {
          crossedRed := true;
        }
        dc.ProcessCrossing(tr.section);
      }
    }

    method Move(i: nat, now: real, driveTime: real)
      requires Fits(line, State()) && i < |trains|
      modifies this
      ensures State() == ArriveOrDepart(line, old(State()), i, now, driveTime)
    {
      var tr := trains[i];
      var next := Next(line.Size(), tr.section);
      var timeInSection := now - tr.timeEntered;
      if !tr.arrivedAtStation && timeInSection > tr.timeToStation {
        trains := trains[i := tr.(atStation := true, arrivedAtStation := true)];
      } else if tr.atStation && timeInSection > tr.timeToStation + line.dwellTime && actualStopLight[next] {
        tr := tr.(atStation := false, arrivedAtStation := false, pastDetector := false);
        tr := tr.(timeEntered := now - line.timeToEntrance[tr.section]);
        tr := tr.(section := next, timeToStation := driveTime);
        trains := trains[i := tr];
      }
    }

    method Insert(now: real, othersGrant: bool)
      requires Fits(line, State())
      requires FirstInactive(trains, 0) < |trains|
      modifies this, dc
      ensures State() == AddTrain(line, old(State()), now, othersGrant)
    {
      var allow := dc.ProcessRequest(0);
      if allow && othersGrant {
        var n := 0;
        while trains[n].active
          invariant 0 <= n < |trains| && FirstInactive(trains, n) == FirstInactive(trains, 0)
          decreases |trains| - n
        {
          n := n + 1;
        }
        trains := trains[n := EnteringTrain(line, trains[n], now)];
        dc.ProcessEntry(0);
      } else {
        dc.ProcessCancel(0);
      }
    }

    method Remove()
      requires Fits(line, State())
      modifies this
      ensures State() == RemoveTrains(line, old(State()))
    {
      var s := Prev(line.Size(), 0);
      ghost var before := trains;
      var i := 0;
      while i < |trains|
        invariant 0 <= i <= |trains| == |before|
        invariant trains == Marked(before, s, i)
        invariant State() == old(State()).(trains := trains)
      {
        if trains[i].active && trains[i].section == s {
          trains := trains[i := trains[i].(exiting := true)];
        }
        i := i + 1;
      }
    }

    method EvalStopLights(others: seq<bool>)
      requires Fits(line, State()) && |others| == line.Size()
      modifies this
      ensures State() == old(State()).(actual := Vote(old(dc.lights), others))
    {
      var i := 0;
      while i < line.Size()
        invariant 0 <= i <= line.Size() == |actualStopLight|
        invariant forall s :: 0 <= s < i ==> actualStopLight[s] == (dc.lights[s] && others[s])
        invariant State() == old(State()).(actual := actualStopLight)
      {
        var isOn := true;
        if !dc.lights[i] {
          isOn := false;
        }
        if !others[i] {
          isOn := false;
        }
        actualStopLight := actualStopLight[i := isOn];
        i := i + 1;
      }
    }

    method Press(now: real, key: Key)
      requires Fits(line, State())
      requires key.InsertKey? ==> FirstInactive(trains, 0) < |trains|
      modifies this, dc
      ensures State() == PressKey(line, old(State()), now, key)
    {
      match key
      case InsertKey(grant) => Insert(now, grant);
      case RemoveKey => Remove();
      case NoKey =>
    }

    method UpdateAll(now: real, driveTimes: seq<real>)
      requires Fits(line, State()) && |driveTimes| == |trains|
      modifies this, dc
      ensures State() == UpdateTrains(line, old(State()), |old(trains)|, now, driveTimes)
    {
      hide UpdateTrain;
      ghost var before := State();
      var j := 0;
      while j < |trains|
        invariant 0 <= j <= |trains| == |before.trains|
        invariant State() == UpdateTrains(line, before, j, now, driveTimes)
      {
        Update(j, now, driveTimes[j]);
        j := j + 1;
      }
    }

    /** One turn of the main loop. */
    method Turn(now: real, x: Input)
      requires Fits(line, State()) && Plausible(line, |trains|, x)
      requires x.key.InsertKey? ==> FirstInactive(trains, 0) < |trains|
      modifies this, dc
      ensures State() == Tick(line, old(State()), now, x)
    {
      Press(now, x.key);
      UpdateAll(now, x.driveTimes);
      EvalStopLights(x.others);
    }
  }
}
