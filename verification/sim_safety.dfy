/** No run of the plant brings two trains into one section. */
module SimSafety {
  // A train is in its new section from the moment it passes the lamp, and booked there only when it passes the detector.

  import opened Ring
  import opened Events
  import opened DcAlg
  import opened Sim

  /** No two trains are in the same section. */
  ghost predicate Safe(p: Plant) {
    forall i, j :: 0 <= i < j < |p.trains| && p.trains[i].active && p.trains[j].active ==>
      p.trains[i].section != p.trains[j].section
  }

  /** The section in which the safety algorithm has the train booked. */
  function Booked(n: nat, tr: Train): nat
    requires tr.section < n
  {
    if tr.pastDetector then tr.section else Prev(n, tr.section)
  }

  /** A train between lamp and detector was let in at a light that is still green, and its clock says
      that it cannot have reached an entrance yet.  Trains before `count` were last updated at `now`,
      the others one tick earlier. */
  predicate GapOk(l: Line, p: Plant, i: nat, count: nat, now: real)
    requires Fits(l, p) && i < |p.trains|
  {
    var tr := p.trains[i];
    var seen := if i < count then now else now - 1.0;
    tr.active ==>
      && (tr.atStation ==> tr.pastDetector)
      && (!tr.pastDetector ==>
            && p.dc.lights[tr.section]
            && tr.timeToStation >= l.timeToDetector
            && seen - tr.timeEntered <= Later(l.timeToDetector, l.timeToEntrance[Prev(l.Size(), tr.section)]))
  }

  /** A train waiting at a lamp that is latched green finds the section behind it free. */
  predicate LatchOk(l: Line, p: Plant, i: nat)
    requires Fits(l, p) && i < |p.trains|
  {
    var tr := p.trains[i];
    var next := Next(l.Size(), tr.section);
    tr.active && tr.atStation && p.actual[next] ==> p.dc.lights[next]
  }

  /** Some active train is booked in section s. */
  ghost predicate Occupied(l: Line, trains: seq<Train>, s: nat)
    requires forall i :: 0 <= i < |trains| ==> trains[i].section < l.Size()
  {
    exists i :: 0 <= i < |trains| && trains[i].active && Booked(l.Size(), trains[i]) == s
  }

  /** What the dc machine has booked is what the trains say, one train per section. */
  ghost predicate BookingOk(l: Line, p: Plant) {
    && Fits(l, p) && LightsTell(p.dc)
    && (forall s :: 0 <= s < l.Size() ==> !p.dc.sections[s].requested)
    && (forall s :: 0 <= s < l.Size() && l.hasEntrance[s] ==> p.dc.sections[s].hasEntry)
    && (forall i, j :: 0 <= i < j < |p.trains| && p.trains[i].active && p.trains[j].active ==>
          Booked(l.Size(), p.trains[i]) != Booked(l.Size(), p.trains[j]))
    && (forall s :: 0 <= s < l.Size() ==> (p.dc.sections[s].hasTrain <==> Occupied(l, p.trains, s)))
  }

  /** In the middle of the tick at time `now`, with the trains before `count` updated. */
  ghost predicate Mid(l: Line, p: Plant, count: nat, now: real) {
    && BookingOk(l, p)
    && (forall i :: 0 <= i < |p.trains| ==> GapOk(l, p, i, count, now))
    && (forall i :: count <= i < |p.trains| ==> LatchOk(l, p, i))
  }

  lemma BookedHere(l: Line, p: Plant, i: nat)
    requires BookingOk(l, p) && i < |p.trains| && p.trains[i].active
    ensures p.dc.sections[Booked(l.Size(), p.trains[i])].hasTrain
  {
    assert Occupied(l, p.trains, Booked(l.Size(), p.trains[i]));
  }

  lemma MidSafe(l: Line, p: Plant, count: nat, now: real)
    requires Mid(l, p, count, now)
    ensures Safe(p)
  {
    forall i, j | 0 <= i < j < |p.trains| && p.trains[i].active && p.trains[j].active
      ensures p.trains[i].section != p.trains[j].section
    {
      assert GapOk(l, p, i, count, now) && GapOk(l, p, j, count, now);
      BookedHere(l, p, i);
      BookedHere(l, p, j);
    }
  }

  // ---------------------------------------------------------------- one update

  /** Replacing train i moves only its own booking. */
  lemma OccupiedAfter(l: Line, trains: seq<Train>, i: nat, tr: Train, s: nat)
    requires i < |trains| && tr.section < l.Size()
    requires forall k :: 0 <= k < |trains| ==> trains[k].section < l.Size()
    requires forall k :: 0 <= k < |trains| && k != i && trains[k].active && trains[i].active ==>
               Booked(l.Size(), trains[k]) != Booked(l.Size(), trains[i])
    ensures Occupied(l, trains[i := tr], s) <==>
              (tr.active && Booked(l.Size(), tr) == s) ||
              (Occupied(l, trains, s) && !(trains[i].active && Booked(l.Size(), trains[i]) == s))
  {
    var r := trains[i := tr];
    if Occupied(l, r, s) {
      var k :| 0 <= k < |r| && r[k].active && Booked(l.Size(), r[k]) == s;
      if k != i { assert trains[k] == r[k]; }
    }
    if tr.active && Booked(l.Size(), tr) == s { assert r[i] == tr; }
    if Occupied(l, trains, s) && !(trains[i].active && Booked(l.Size(), trains[i]) == s) {
      var k :| 0 <= k < |trains| && trains[k].active && Booked(l.Size(), trains[k]) == s;
      assert r[k] == trains[k];
    }
  }

  /** A train leaves the system only from where it is booked. */
  lemma LeaveKeeps(l: Line, p: Plant, i: nat, now: real)
    requires Mid(l, p, i, now) && i < |p.trains| && p.trains[i].active
    ensures
      var r := LeaveSystem(l, p, i, now);
      && Mid(l, r, i, now) && r.dc.estop == p.dc.estop
      && (!r.trains[i].active ==> r.trains[i].pastDetector)
      && r.crossedRed == p.crossedRed
  {
    var r := LeaveSystem(l, p, i, now);
    var tr := p.trains[i];
    assert GapOk(l, p, i, i, now);
    if l.hasEntrance[tr.section] && tr.exiting && now - tr.timeEntered >= l.timeToEntrance[tr.section] {
      BookedHere(l, p, i);
      HandleKeeps(p.dc, Exit(tr.section));
      forall s | 0 <= s < l.Size() ensures r.dc.sections[s].hasTrain <==> Occupied(l, r.trains, s) {
        OccupiedAfter(l, p.trains, i, r.trains[i], s);
      }
      forall k | 0 <= k < |r.trains| ensures GapOk(l, r, k, i, now) { assert GapOk(l, p, k, i, now); }
      forall k | i <= k < |r.trains| ensures LatchOk(l, r, k) { assert LatchOk(l, p, k); }
    }
  }

  /** A crossing is reported at a section that is free, by the one train booked in the section behind. */
  lemma DetectKeeps(l: Line, p: Plant, i: nat, now: real)
    requires Mid(l, p, i, now) && i < |p.trains|
    requires !p.trains[i].active ==> p.trains[i].pastDetector
    ensures
      var r := PassDetector(l, p, i, now);
      && Mid(l, r, i, now) && r.dc.estop == p.dc.estop
      && (!r.trains[i].pastDetector ==> now - r.trains[i].timeEntered <= l.timeToDetector)
      && (r.crossedRed ==> p.crossedRed || (!p.trains[i].pastDetector && !p.actual[p.trains[i].section]))
  {
    var r := PassDetector(l, p, i, now);
    var tr := p.trains[i];
    var n := l.Size();
    assert GapOk(l, p, i, i, now);
    if !tr.pastDetector && now - tr.timeEntered > l.timeToDetector {
      var s, last := tr.section, Prev(n, tr.section);
      BookedHere(l, p, i);
      HandleKeeps(p.dc, Crossing(s));
      forall q | 0 <= q < n ensures r.dc.sections[q].hasTrain <==> Occupied(l, r.trains, q) {
        OccupiedAfter(l, p.trains, i, r.trains[i], q);
      }
      forall j, k | 0 <= j < k < |r.trains| && r.trains[j].active && r.trains[k].active
        ensures Booked(n, r.trains[j]) != Booked(n, r.trains[k])
      {
        if j == i { BookedHere(l, p, k); }
        if k == i { BookedHere(l, p, j); }
      }
      forall k | 0 <= k < |r.trains| ensures GapOk(l, r, k, i, now) {
        assert GapOk(l, p, k, i, now);
      }
      forall k | i <= k < |r.trains| ensures LatchOk(l, r, k) {
        assert LatchOk(l, p, k) && GapOk(l, p, k, i, now);
        PrevOfNext(n, p.trains[k].section);
      }
    }
  }

  lemma MoveKeeps(l: Line, p: Plant, i: nat, now: real, driveTime: real)
    requires Mid(l, p, i, now) && i < |p.trains| && driveTime >= l.timeToDetector
    requires !p.trains[i].pastDetector ==> now - p.trains[i].timeEntered <= l.timeToDetector
    ensures
      var r := ArriveOrDepart(l, p, i, now, driveTime);
      Mid(l, r, i + 1, now) && r.dc == p.dc && r.crossedRed == p.crossedRed
  {
    var r := ArriveOrDepart(l, p, i, now, driveTime);
    var tr := p.trains[i];
    assert GapOk(l, p, i, i, now) && LatchOk(l, p, i);
    PrevOfNext(l.Size(), tr.section);
    assert r == p.(trains := p.trains[i := r.trains[i]]) by {
      assert p.trains == p.trains[i := tr];
    }
    MovedTrainKeeps(l, p, i, now, r.trains[i]);
  }

  /** Only train i has changed: its booking is as before, and it obeys the rules itself. */
  lemma MovedTrainKeeps(l: Line, p: Plant, i: nat, now: real, tr: Train)
    requires Mid(l, p, i, now) && i < |p.trains| && tr.section < l.Size()
    requires tr.active == p.trains[i].active
    requires tr.active ==> Booked(l.Size(), tr) == Booked(l.Size(), p.trains[i])
    requires GapOk(l, p.(trains := p.trains[i := tr]), i, i + 1, now)
    ensures Mid(l, p.(trains := p.trains[i := tr]), i + 1, now)
  {
    var r := p.(trains := p.trains[i := tr]);
    var done := i + 1;
    forall s | 0 <= s < l.Size() ensures r.dc.sections[s].hasTrain <==> Occupied(l, r.trains, s) {
      OccupiedAfter(l, p.trains, i, tr, s);
    }
    forall k | 0 <= k < |r.trains| ensures GapOk(l, r, k, done, now) { assert GapOk(l, p, k, i, now); }
    forall k | done <= k < |r.trains| ensures LatchOk(l, r, k) { assert LatchOk(l, p, k); }
  }

  lemma UpdateKeeps(l: Line, p: Plant, i: nat, now: real, driveTime: real)
    requires Mid(l, p, i, now) && i < |p.trains| && driveTime >= l.timeToDetector
    ensures
      var r := UpdateTrain(l, p, i, now, driveTime);
      Mid(l, r, i + 1, now) && r.dc.estop == p.dc.estop && r.actual == p.actual
  {
    if p.trains[i].active {
      LeaveKeeps(l, p, i, now);
      var q := LeaveSystem(l, p, i, now);
      DetectKeeps(l, q, i, now);
      MoveKeeps(l, PassDetector(l, q, i, now), i, now, driveTime);
    } else {
      var done := i + 1;
      forall k | 0 <= k < |p.trains| ensures GapOk(l, p, k, done, now) { assert GapOk(l, p, k, i, now); }
    }
  }

  lemma {:induction false} UpdatesKeep(l: Line, p: Plant, count: nat, now: real, driveTimes: seq<real>)
    requires Fits(l, p) && Mid(l, p, 0, now) && count <= |p.trains| == |driveTimes|
    requires forall i :: 0 <= i < |driveTimes| ==> driveTimes[i] >= l.timeToDetector
    ensures
      var r := UpdateTrains(l, p, count, now, driveTimes);
      Mid(l, r, count, now) && r.dc.estop == p.dc.estop && r.actual == p.actual
  {
    hide Mid, UpdateTrain;
    if count > 0 {
      UpdatesKeep(l, p, count - 1, now, driveTimes);
      UpdateKeeps(l, UpdateTrains(l, p, count - 1, now, driveTimes), count - 1, now, driveTimes[count - 1]);
    }
  }

  // ---------------------------------------------------------------- keys

  /** A train is put in only where none is and none can come; a refused request changes nothing but
      the emergency stop, which is called exactly when the dc machine refuses. */
  lemma AddKeeps(l: Line, p: Plant, now: real, othersGrant: bool)
    requires Mid(l, p, 0, now)
    ensures
      var r := AddTrain(l, p, now, othersGrant);
      Mid(l, r, 0, now) && (r.dc.estop <==> p.dc.estop || !Grants(p.dc, 0))
  {
    var r := AddTrain(l, p, now, othersGrant);
    var n := l.Size();
    HandleKeeps(p.dc, Request(0));
    var asked := RequestEntry(p.dc, 0);
    var i := FirstInactive(p.trains, 0);
    if !Grants(p.dc, 0) || !othersGrant {
      HandleKeeps(asked, Cancel(0));
      assert r.dc.sections == p.dc.sections && r.dc.lights == p.dc.lights;
      forall k | 0 <= k < |r.trains| ensures GapOk(l, r, k, 0, now) { assert GapOk(l, p, k, 0, now); }
      forall k | 0 <= k < |r.trains| ensures LatchOk(l, r, k) { assert LatchOk(l, p, k); }
    } else if i < |p.trains| {
      HandleKeeps(asked, Entry(0));
      EnteredKeeps(l, p, i, now, r);
    }
  }

  lemma EnteredKeeps(l: Line, p: Plant, i: nat, now: real, r: Plant)
    requires Mid(l, p, 0, now) && i < |p.trains| && !p.trains[i].active
    requires Grants(p.dc, 0)
    requires Fits(l, r) && LightsTell(r.dc)
    requires r.trains == p.trains[i := EnteringTrain(l, p.trains[i], now)] && r.actual == p.actual
    requires r.dc.sections == p.dc.sections[0 := p.dc.sections[0].(hasTrain := true)]
    ensures Mid(l, r, 0, now)
  {
    var n := l.Size();
    forall s | 0 <= s < n ensures r.dc.sections[s].hasTrain <==> Occupied(l, r.trains, s) {
      OccupiedAfter(l, p.trains, i, r.trains[i], s);
    }
    forall j, k | 0 <= j < k < |r.trains| && r.trains[j].active && r.trains[k].active
      ensures Booked(n, r.trains[j]) != Booked(n, r.trains[k])
    {
      if j == i { BookedHere(l, p, k); }
      if k == i { BookedHere(l, p, j); }
    }
    forall k | 0 <= k < |r.trains| ensures GapOk(l, r, k, 0, now) && LatchOk(l, r, k) {
      assert GapOk(l, p, k, 0, now) && LatchOk(l, p, k);
      if k != i && p.trains[k].active { BookedHere(l, p, k); PrevOfNext(n, p.trains[k].section); }
    }
  }

  lemma RemoveKeeps(l: Line, p: Plant, now: real)
    requires Mid(l, p, 0, now)
    ensures Mid(l, RemoveTrains(l, p), 0, now)
  {
    var r := RemoveTrains(l, p);
    forall s | 0 <= s < l.Size() ensures Occupied(l, p.trains, s) <==> Occupied(l, r.trains, s) {
      if Occupied(l, p.trains, s) {
        var k :| 0 <= k < |p.trains| && p.trains[k].active && Booked(l.Size(), p.trains[k]) == s;
        assert r.trains[k].active && Booked(l.Size(), r.trains[k]) == s;
      }
      if Occupied(l, r.trains, s) {
        var k :| 0 <= k < |r.trains| && r.trains[k].active && Booked(l.Size(), r.trains[k]) == s;
        assert p.trains[k].active && Booked(l.Size(), p.trains[k]) == s;
      }
    }
    forall k | 0 <= k < |r.trains| ensures GapOk(l, r, k, 0, now) && LatchOk(l, r, k) {
      assert GapOk(l, p, k, 0, now) && LatchOk(l, p, k);
    }
  }

  // ---------------------------------------------------------------- ticks and runs

  /** Between two ticks, the last of them at `now`: everything updated, and no lamp latched green
      without the consent of the dc machine. */
  ghost predicate Between(l: Line, p: Plant, now: real) {
    && Mid(l, p, |p.trains|, now)
    && forall s :: 0 <= s < l.Size() && p.actual[s] ==> p.dc.lights[s]
  }

  lemma NextTickBegins(l: Line, p: Plant, now: real)
    requires Between(l, p, now - 1.0)
    ensures Mid(l, p, 0, now)
  {
    var all := |p.trains|;
    forall k | 0 <= k < |p.trains| ensures GapOk(l, p, k, 0, now) && LatchOk(l, p, k) {
      assert GapOk(l, p, k, all, now - 1.0);
    }
  }

  predicate RefusedRequest(p: Plant, x: Input)
    requires |p.dc.sections| > 0
  {
    x.key.InsertKey? && !Grants(p.dc, 0)
  }

  lemma KeyKeeps(l: Line, p: Plant, now: real, x: Input)
    requires Mid(l, p, 0, now)
    ensures
      var r := PressKey(l, p, now, x.key);
      Mid(l, r, 0, now) && (r.dc.estop <==> p.dc.estop || RefusedRequest(p, x))
  {
    match x.key
    case NoKey =>
    case InsertKey(grant) => AddKeeps(l, p, now, grant);
    case RemoveKey => RemoveKeeps(l, p, now);
  }

  lemma TickKeeps(l: Line, p: Plant, now: real, x: Input)
    requires Between(l, p, now - 1.0) && Plausible(l, |p.trains|, x)
    ensures
      var r := Tick(l, p, now, x);
      Between(l, r, now) && (r.dc.estop <==> p.dc.estop || RefusedRequest(p, x))
  {
    NextTickBegins(l, p, now);
    KeyKeeps(l, p, now, x);
    var q := PressKey(l, p, now, x.key);
    UpdatesKeep(l, q, |p.trains|, now, x.driveTimes);
    var u := UpdateTrains(l, q, |p.trains|, now, x.driveTimes);
    var r := Tick(l, p, now, x);
    var all := |p.trains|;
    forall k | 0 <= k < |r.trains| ensures GapOk(l, r, k, all, now) { assert GapOk(l, u, k, all, now); }
  }

  /** The start: the first `k` trains stand past their detectors in sections of their own, which is what
      the dc machine has been told; all lamps are latched red. */
  ghost predicate Init(l: Line, p: Plant, d: Dc, k: nat) {
    && Fits(l, p) && k <= |p.trains| && Blank(d) && |d.sections| == l.Size()
    && (forall s :: 0 <= s < l.Size() && l.hasEntrance[s] ==> d.sections[s].hasEntry)
    && (forall i :: 0 <= i < |p.trains| ==> p.trains[i].active == (i < k))
    && (forall i :: 0 <= i < k ==> p.trains[i].pastDetector)
    && (forall i, j :: 0 <= i < j < k ==> p.trains[i].section != p.trains[j].section)
    && p.dc == InitialState(d, seq(k, i requires 0 <= i < k => p.trains[i].section))
    && (forall s :: 0 <= s < l.Size() ==> !p.actual[s])
  }

  /** The dc machine has been told of exactly the sections with a train. */
  lemma InitBooking(l: Line, p: Plant, d: Dc, k: nat)
    requires Init(l, p, d, k)
    ensures LightsTell(p.dc) && !p.dc.estop
    ensures forall s :: 0 <= s < l.Size() ==>
              && !p.dc.sections[s].requested && (l.hasEntrance[s] ==> p.dc.sections[s].hasEntry)
              && (p.dc.sections[s].hasTrain <==> Occupied(l, p.trains, s))
  {
    var locations: seq<int> := seq(k, i requires 0 <= i < k => p.trains[i].section);
    forall s | 0 <= s < l.Size() ensures p.dc.sections[s].hasTrain <==> Occupied(l, p.trains, s) {
      if Occupied(l, p.trains, s) {
        var i :| 0 <= i < |p.trains| && p.trains[i].active && Booked(l.Size(), p.trains[i]) == s;
        assert locations[i] == s;
      }
      if s in locations {
        var i :| 0 <= i < k && locations[i] == s;
        assert p.trains[i].active && Booked(l.Size(), p.trains[i]) == s;
      }
    }
  }

  lemma InitBetween(l: Line, p: Plant, d: Dc, k: nat)
    requires Init(l, p, d, k)
    ensures Between(l, p, -1.0) && !p.dc.estop
  {
    InitBooking(l, p, d, k);
    hide InitialState, Occupied, LightsTell;
  }

  lemma {:induction false} RunKeeps(l: Line, p: Plant, xs: seq<Input>)
    requires Fits(l, p) && Between(l, p, -1.0)
    requires forall i :: 0 <= i < |xs| ==> Plausible(l, |p.trains|, xs[i])
    ensures Between(l, Run(l, p, xs), |xs| as real - 1.0)
  {
    hide Between, Tick;
    if xs != [] {
      var m := |xs| - 1;
      RunKeeps(l, p, xs[..m]);
      TickKeeps(l, Run(l, p, xs[..m]), m as real, xs[m]);
    }
  }

  /** On every run, whatever the other voters say, whenever keys are pressed and however fast trains are
      driven, no two trains are in one section, and each is booked by the dc machine. */
  lemma CollisionFree(l: Line, p: Plant, d: Dc, k: nat, xs: seq<Input>)
    requires Init(l, p, d, k) && forall i :: 0 <= i < |xs| ==> Plausible(l, |p.trains|, xs[i])
    ensures Safe(Run(l, p, xs)) && BookingOk(l, Run(l, p, xs))
  {
    InitBetween(l, p, d, k);
    RunKeeps(l, p, xs);
    MidSafe(l, Run(l, p, xs), |p.trains|, |xs| as real - 1.0);
  }

  /** The same holds in the middle of a tick, after any number of trains has been updated. */
  lemma CollisionFreeWithinTick(l: Line, p: Plant, d: Dc, k: nat, xs: seq<Input>, x: Input, count: nat)
    requires Init(l, p, d, k) && forall i :: 0 <= i < |xs| ==> Plausible(l, |p.trains|, xs[i])
    requires Plausible(l, |p.trains|, x) && count <= |p.trains|
    ensures
      var now := |xs| as real;
      Safe(UpdateTrains(l, PressKey(l, Run(l, p, xs), now, x.key), count, now, x.driveTimes))
  {
    var now := |xs| as real;
    InitBetween(l, p, d, k);
    RunKeeps(l, p, xs);
    SafeWithinTick(l, Run(l, p, xs), now, x, count);
  }

  lemma SafeWithinTick(l: Line, p: Plant, now: real, x: Input, count: nat)
    requires Between(l, p, now - 1.0) && Plausible(l, |p.trains|, x) && count <= |p.trains|
    ensures Safe(UpdateTrains(l, PressKey(l, p, now, x.key), count, now, x.driveTimes))
  {
    NextTickBegins(l, p, now);
    KeyKeeps(l, p, now, x);
    var q := PressKey(l, p, now, x.key);
    UpdatesKeep(l, q, count, now, x.driveTimes);
    MidSafe(l, UpdateTrains(l, q, count, now, x.driveTimes), count, now);
  }

  /** In some tick of the run a train was asked for when the dc machine had to refuse. */
  predicate EverRefused(l: Line, p: Plant, xs: seq<Input>)
    requires Fits(l, p) && forall i :: 0 <= i < |xs| ==> Plausible(l, |p.trains|, xs[i])
  {
    if xs == [] then false
    else var m := |xs| - 1;
         EverRefused(l, p, xs[..m]) || RefusedRequest(Run(l, p, xs[..m]), xs[m])
  }

  /** The dc machine accepts every crossing, exit and granted entry of every run: it calls for an
      emergency stop exactly if a train was asked for at a moment when it had to refuse. */
  lemma StopsOnlyOnRefusal(l: Line, p: Plant, d: Dc, k: nat, xs: seq<Input>)
    requires Init(l, p, d, k) && forall i :: 0 <= i < |xs| ==> Plausible(l, |p.trains|, xs[i])
    ensures Run(l, p, xs).dc.estop <==> EverRefused(l, p, xs)
  {
    InitBetween(l, p, d, k);
    StopsOnRefusal(l, p, xs);
  }

  lemma {:induction false} StopsOnRefusal(l: Line, p: Plant, xs: seq<Input>)
    requires Fits(l, p) && Between(l, p, -1.0) && !p.dc.estop
    requires forall i :: 0 <= i < |xs| ==> Plausible(l, |p.trains|, xs[i])
    ensures Run(l, p, xs).dc.estop <==> EverRefused(l, p, xs)
  {
    hide Between, Tick, RefusedRequest;
    if xs != [] {
      var m := |xs| - 1;
      StopsOnRefusal(l, p, xs[..m]);
      RunKeeps(l, p, xs[..m]);
      TickKeeps(l, Run(l, p, xs[..m]), m as real, xs[m]);
    }
  }

  // ---------------------------------------------------------------- crossings at a red light

  /** Train i is seen by the detector in the tick at `now`. */
  predicate Crosses(l: Line, p: Plant, now: real, i: nat)
    requires i < |p.trains|
  {
    p.trains[i].active && !p.trains[i].pastDetector && now - p.trains[i].timeEntered > l.timeToDetector
  }

  predicate CrossesRed(l: Line, p: Plant, now: real, i: nat)
    requires Fits(l, p) && i < |p.trains|
  {
    Crosses(l, p, now, i) && !p.actual[p.trains[i].section]
  }

  lemma UpdateReports(l: Line, p: Plant, i: nat, now: real, driveTime: real)
    requires Fits(l, p) && i < |p.trains|
    ensures
      var r := UpdateTrain(l, p, i, now, driveTime);
      && r.actual == p.actual && (forall j :: 0 <= j < |p.trains| && j != i ==> r.trains[j] == p.trains[j])
      && (r.crossedRed <==> p.crossedRed || CrossesRed(l, p, now, i))
  {}

  lemma {:induction false} UpdatesReport(l: Line, p: Plant, count: nat, now: real, driveTimes: seq<real>)
    requires Fits(l, p) && count <= |p.trains| == |driveTimes|
    ensures
      var r := UpdateTrains(l, p, count, now, driveTimes);
      && r.actual == p.actual && (forall j :: count <= j < |p.trains| ==> r.trains[j] == p.trains[j])
      && (r.crossedRed <==> p.crossedRed || exists i :: 0 <= i < count && CrossesRed(l, p, now, i))
  {
    hide UpdateTrain, Crosses;
    if count > 0 {
      var i := count - 1;
      UpdatesReport(l, p, i, now, driveTimes);
      var u := UpdateTrains(l, p, i, now, driveTimes);
      UpdateReports(l, u, i, now, driveTimes[i]);
      SameTrainCrosses(l, u, p, now, i);
    }
  }

  lemma SameTrainCrosses(l: Line, u: Plant, p: Plant, now: real, i: nat)
    requires Fits(l, u) && Fits(l, p) && i < |p.trains| == |u.trains| && u.trains[i] == p.trains[i] && u.actual == p.actual
    ensures CrossesRed(l, u, now, i) == CrossesRed(l, p, now, i)
  {}

  lemma KeyReports(l: Line, p: Plant, now: real, key: Key)
    requires Fits(l, p)
    ensures
      var r := PressKey(l, p, now, key);
      && r.crossedRed == p.crossedRed && r.actual == p.actual
      && forall i :: 0 <= i < |p.trains| ==> CrossesRed(l, r, now, i) == CrossesRed(l, p, now, i)
  {}

  /** A tick reports a crossing at red exactly for the trains that reach the detector of a section whose lamp
      was latched red in the tick before. */
  lemma TickReports(l: Line, p: Plant, now: real, x: Input)
    requires Fits(l, p) && Plausible(l, |p.trains|, x)
    ensures
      Tick(l, p, now, x).crossedRed <==> p.crossedRed || exists i :: 0 <= i < |p.trains| && CrossesRed(l, p, now, i)
  {
    hide PressKey, UpdateTrains, CrossesRed, Vote;
    KeyReports(l, p, now, x.key);
    UpdatesReport(l, PressKey(l, p, now, x.key), |p.trains|, now, x.driveTimes);
  }

  /** Of a train between lamp and detector the dc machine never takes the green light back: the lamp is red
      exactly if another voter said no in the last tick. */
  lemma RedIsWithdrawn(l: Line, p: Plant, now: real, x: Input, i: nat)
    requires Between(l, p, now - 1.0) && Plausible(l, |p.trains|, x) && i < |p.trains|
    requires var tr := Tick(l, p, now, x).trains[i]; tr.active && !tr.pastDetector
    ensures
      var r := Tick(l, p, now, x);
      r.dc.lights[r.trains[i].section] && r.actual[r.trains[i].section] == x.others[r.trains[i].section]
  {
    TickKeeps(l, p, now, x);
    assert GapOk(l, Tick(l, p, now, x), i, |p.trains|, now);
  }

  /** At some crossing of the run, another voter said no to the section in the last tick before it. */
  ghost predicate EverWithdrawn(l: Line, p: Plant, xs: seq<Input>)
    requires Fits(l, p) && forall i :: 0 <= i < |xs| ==> Plausible(l, |p.trains|, xs[i])
  {
    if |xs| < 2 then false
    else
      var m := |xs| - 1;
      EverWithdrawn(l, p, xs[..m]) || WithdrawnFrom(l, Run(l, p, xs[..m]), m as real, xs[m - 1].others)
  }

  ghost predicate WithdrawnFrom(l: Line, p: Plant, now: real, others: seq<bool>)
    requires Fits(l, p) && |others| == l.Size()
  {
    exists i :: 0 <= i < |p.trains| && Crosses(l, p, now, i) && !others[p.trains[i].section]
  }

  /** On every run a crossing is reported at a lamp latched red exactly if, at some crossing, a voter other than
      the dc machine had taken the green light back from the train that had passed it. */
  lemma RedIffWithdrawn(l: Line, p: Plant, d: Dc, k: nat, xs: seq<Input>)
    requires Init(l, p, d, k) && !p.crossedRed
    requires forall i :: 0 <= i < |xs| ==> Plausible(l, |p.trains|, xs[i])
    ensures Run(l, p, xs).crossedRed <==> EverWithdrawn(l, p, xs)
  {
    InitBetween(l, p, d, k);
    RunReports(l, p, xs);
  }

  lemma {:induction false} RunReports(l: Line, p: Plant, xs: seq<Input>)
    requires Fits(l, p) && Between(l, p, -1.0) && !p.crossedRed
    requires forall i :: 0 <= i < |p.trains| && p.trains[i].active ==> p.trains[i].pastDetector
    requires forall i :: 0 <= i < |xs| ==> Plausible(l, |p.trains|, xs[i])
    ensures Run(l, p, xs).crossedRed <==> EverWithdrawn(l, p, xs)
  {
    hide Between, Tick;
    if xs != [] {
      var m := |xs| - 1;
      RunReports(l, p, xs[..m]);
      var q := Run(l, p, xs[..m]);
      TickReports(l, q, m as real, xs[m]);
      if m > 0 {
        var o := Run(l, p, xs[..m - 1]);
        assert xs[..m][..m - 1] == xs[..m - 1];
        RunKeeps(l, p, xs[..m - 1]);
        assert q == Tick(l, o, (m - 1) as real, xs[m - 1]);
        forall i | 0 <= i < |q.trains|
          ensures CrossesRed(l, q, m as real, i) <==> Crosses(l, q, m as real, i) && !xs[m - 1].others[q.trains[i].section]
        {
          if Crosses(l, q, m as real, i) {
            RedIsWithdrawn(l, o, (m - 1) as real, xs[m - 1], i);
          }
        }
      }
    }
  }
}
